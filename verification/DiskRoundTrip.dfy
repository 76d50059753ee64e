/** What becomes of a resident page: evicted dirty it sits on the simulated disk untouched until its own process
    wants it; evicted clean it looks as if it had never been used. */
module DiskRoundTrip {
  import opened Basics
  import opened Lru
  import opened Memory
  import opened Paging
  import opened FrameInvariant
  import opened PagingRuns
  import opened FlatMemory

  ghost predicate OnDisk(vm: Vm, i: nat, vp: nat, bytes: Page)
    requires Shape(vm)
  {
    && i < |vm.pids| && !Entry(vm.mem, i, vp).isValid
    && KeyOf(vm, i, vp) in vm.disk && vm.disk[KeyOf(vm, i, vp)] == bytes
  }

  /** The operation faults the page in, frees it, or ends its process. */
  predicate Claims(vm: Vm, op: Op, i: nat, vp: nat)
    requires Shape(vm) && i < |vm.pids|
  {
    match op
    case PageFault(j, vq) => j == i && vq == vp
    case FreeHeap(j, a) => j == i && a in vm.heaps[i] && a / PAGE_SIZE <= vp < a / PAGE_SIZE + vm.heaps[i][a]
    case Exit(j) => j == i
    case _ => false
  }

  ghost predicate Unclaimed(vm: Vm, ops: seq<Op>, i: nat, vp: nat)
    requires Shape(vm)
  {
    ops == [] ||
    (Unclaimed(vm, ops[..|ops| - 1], i, vp)
     && var v := Run(vm, ops[..|ops| - 1]); i < |v.pids| && !Claims(v, ops[|ops| - 1], i, vp))
  }

  /** A dirty private victim goes to disk with exactly its bytes. */
  lemma DirtyVictimIsSaved(vm: Vm, i: nat, vp: nat)
    requires Inv(vm) && CanTake(vm) && !HasFree(vm.mem) && i < |vm.pids| && !InSharedWindow(vp)
    requires Holds(vm, TakenFrame(vm), i, vp) && Entry(vm.mem, i, vp).isDirty
    ensures OnDisk(TakeFrame(vm), i, vp, View(vm, i, vp))
  {
    var p, k := EvictEffect(vm);
    assert Owning(vm, p);
  }

  lemma PageInKeepsSaved(vm: Vm, j: nat, vq: nat, i: nat, vp: nat, bytes: Page)
    requires Inv(vm) && j < |vm.pids| && Live(vm, j) && CanTake(vm) && !Entry(vm.mem, j, vq).isValid
    requires OnDisk(vm, i, vp, bytes) && !(i == j && vp == vq)
    ensures OnDisk(PageIn(vm, j, vq), i, vp, bytes)
  {
    hide Inv, PageIn, GrowTable, TakeFrame, Install, CanTake;
    InvShape(vm);
    var vm1 := vm.(mem := GrowTable(vm.mem, j, vq + 1));
    GrowInv(vm, j, vq + 1);
    GrowView(vm, j, vq + 1, i, vp);
    TakeFrameKeeps(vm1, i, vp);
    PageInForm(vm, j, vq);
    DistinctKeys(vm, i, vp, j, vq);
    var vm2 := TakeFrame(vm1);
    var vm3 := vm2.(disk := vm2.disk - {KeyOf(vm, j, vq)});
    GrowView(vm, j, vq + 1, j, vq);
    InstallEntries(vm3, j, vq, TakenFrame(vm1), View(vm, j, vq));
  }

  lemma {:induction false} GrabRangeKeepsSaved(vm: Vm, j: nat, start: nat, n: nat, i: nat, vp: nat, bytes: Page)
    requires Inv(vm) && j < |vm.pids| && start + n <= |vm.mem.tables[j]| && CanTake(vm) && RunFree(vm, j, start, n)
    requires OnDisk(vm, i, vp, bytes)
    ensures OnDisk(GrabRange(vm, j, start, n), i, vp, bytes)
  {
    hide Inv, Grab, PageIn, OnDisk, CanTake, RunFree;
    InvShape(vm);
    if n > 0 {
      var v, vq := GrabRange(vm, j, start, n - 1), start + n - 1;
      GrabNext(vm, j, start, n);
      GrabRangeKeepsSaved(vm, j, start, n - 1, i, vp, bytes);
      GrabIsPageIn(v, j, vq);
      SavedIsInUse(v, i, vp, bytes);
      PageInKeepsSaved(v, j, vq, i, vp, bytes);
    }
  }

  /** Alloc never takes a saved page for a free one. */
  lemma SavedIsInUse(vm: Vm, i: nat, vp: nat, bytes: Page)
    requires Shape(vm) && OnDisk(vm, i, vp, bytes)
    ensures i < |vm.pids| && !PageFree(vm, i, vp)
  {}

  lemma ReleaseKeepsSaved(vm: Vm, j: nat, vq: nat, i: nat, vp: nat, bytes: Page)
    requires Inv(vm) && j < |vm.pids| && !InSharedWindow(vq) && OnDisk(vm, i, vp, bytes) && !(i == j && vp == vq)
    ensures OnDisk(Release(vm, j, vq), i, vp, bytes)
  {
    DistinctKeys(vm, i, vp, j, vq);
    if vq < |vm.mem.tables[j]| {
      ReleaseEffect(vm, j, vq);
      hide Release;
    }
  }

  lemma {:induction false} ReleaseRangeKeepsSaved(vm: Vm, j: nat, start: nat, n: nat, i: nat, vp: nat, bytes: Page)
    requires Inv(vm) && j < |vm.pids| && start + n <= HEAP_LAST + 1
    requires OnDisk(vm, i, vp, bytes) && !(i == j && start <= vp < start + n)
    ensures OnDisk(ReleaseRange(vm, j, start, n), i, vp, bytes)
  {
    hide Inv, Release, OnDisk;
    InvShape(vm);
    if n > 0 {
      ReleaseRangeKeepsSaved(vm, j, start, n - 1, i, vp, bytes);
      ReleaseRangeInv(vm, j, start, n - 1);
      ReleaseKeepsSaved(ReleaseRange(vm, j, start, n - 1), j, start + n - 1, i, vp, bytes);
    }
  }

  lemma AccessKeepsSaved(vm: Vm, j: nat, va: Word, b: Byte, i: nat, vp: nat, bytes: Page)
    requires Inv(vm) && j < |vm.pids| && OnDisk(vm, i, vp, bytes)
    ensures OnDisk(vm.(mem := ReadByte(vm.mem, j, vm.sizes[j], va).mem), i, vp, bytes)
    ensures OnDisk(vm.(mem := WriteByte(vm.mem, j, vm.sizes[j], va, b).mem), i, vp, bytes)
  {
    assert Backed(vm, j, va / PAGE_SIZE);
  }

  lemma FreeKeepsSaved(vm: Vm, j: nat, a: nat, i: nat, vp: nat, bytes: Page)
    requires Inv(vm) && j < |vm.pids| && OnDisk(vm, i, vp, bytes)
    requires !(j == i && a in vm.heaps[i] && a / PAGE_SIZE <= vp < a / PAGE_SIZE + vm.heaps[i][a])
    ensures OnDisk(Free(vm, j, a), i, vp, bytes)
  {
    if a in vm.heaps[j] {
      assert HeapOk(vm.heaps[j]);
      ReleaseRangeKeepsSaved(vm, j, a / PAGE_SIZE, vm.heaps[j][a], i, vp, bytes);
    }
  }

  lemma MapKeepsSaved(vm: Vm, j: nat, region: nat, i: nat, vp: nat, bytes: Page)
    requires Inv(vm) && j < |vm.pids| && region < NUM_SHARED && OnDisk(vm, i, vp, bytes) && !InSharedWindow(vp)
    ensures OnDisk(MapShared(vm, j, region), i, vp, bytes)
  {
    hide MapShared;
    MapSharedEffect(vm, j, region);
  }

  lemma ExitKeepsSaved(vm: Vm, j: nat, i: nat, vp: nat, bytes: Page)
    requires Inv(vm) && j < |vm.pids| && j != i && OnDisk(vm, i, vp, bytes)
    ensures OnDisk(Cleanup(vm, j), i, vp, bytes)
  {
    DistinctKeys(vm, i, vp, j, vp);
  }

  /** Any other operation, of any process, leaves the saved page where it is. */
  lemma StepKeepsSaved(vm: Vm, op: Op, i: nat, vp: nat, bytes: Page)
    requires Inv(vm) && Roomy(vm) && OnDisk(vm, i, vp, bytes) && !InSharedWindow(vp) && !Claims(vm, op, i, vp)
    ensures OnDisk(Step(vm, op), i, vp, bytes)
  {
    hide Inv, Roomy, OnDisk, PageIn, Alloc, Free, MapShared, Cleanup, Create, ReadByte, WriteByte;
    InvShape(vm);
    if Enabled(vm, op) {
      match op
      case Read(j, va) => AccessKeepsSaved(vm, j, va, 0, i, vp, bytes);
      case Write(j, va, b) => AccessKeepsSaved(vm, j, va, b, i, vp, bytes);
      case PageFault(j, vq) => PageInKeepsSaved(vm, j, vq, i, vp, bytes);
      case AllocHeap(j, n) => AllocKeepsSaved(vm, j, n, i, vp, bytes);
      case FreeHeap(j, a) => FreeKeepsSaved(vm, j, a, i, vp, bytes);
      case MapRegion(j, r) => MapKeepsSaved(vm, j, r, i, vp, bytes);
      case Exit(j) => ExitKeepsSaved(vm, j, i, vp, bytes);
      case Spawn(code) => CreateKeepsSaved(vm, code, i, vp, bytes);
    }
  }

  lemma AllocKeepsSaved(vm: Vm, j: nat, n: int, i: nat, vp: nat, bytes: Page)
    requires Inv(vm) && j < |vm.pids| && Live(vm, j) && CanTake(vm) && OnDisk(vm, i, vp, bytes)
    ensures OnDisk(Alloc(vm, j, n).0, i, vp, bytes)
  {
    hide Inv, GrabRange, FirstFit;
    InvShape(vm);
    var vm1 := vm.(mem := GrowTable(vm.mem, j, HEAP_LAST + 1));
    GrowInv(vm, j, HEAP_LAST + 1);
    FirstFitInHeap(vm1, j, PagesNeeded(n), HEAP_FIRST);
    var s := FirstFit(vm1, j, PagesNeeded(n), HEAP_FIRST);
    if s.Some? {
      GrabRangeKeepsSaved(vm1, j, s.value, PagesNeeded(n), i, vp, bytes);
    }
  }

  lemma CreateKeepsSaved(vm: Vm, code: seq<Byte>, i: nat, vp: nat, bytes: Page)
    requires Inv(vm) && |code| <= 0xE000 && OnDisk(vm, i, vp, bytes)
    ensures OnDisk(Create(vm, code).0, i, vp, bytes)
  {
    hide Inv, LoadPages, WriteCode;
    InvShape(vm);
    var n0, vm1 := |vm.pids|, AddProcess(vm, |code|);
    AddProcessInv(vm, |code|);
    if |code| != 0 {
      var n := (CODE_BASE + |code| - 1) / PAGE_SIZE - CODE_PAGE + 1;
      LoadPagesEffect(vm1, n0, CODE_PAGE, n);
      LoadPagesInv(vm1, n0, CODE_PAGE, n);
      var (vm2, ok) := LoadPages(vm1, n0, CODE_PAGE, n);
      if ok {
        ValidInRange(vm2, n0);
        WriteCodeEffect(vm2.mem, n0, code, |code|);
      }
    }
  }

  /** Over any run that does not claim the page, its saved bytes stay on disk unchanged. */
  lemma {:induction false} RunKeepsSaved(vm: Vm, ops: seq<Op>, i: nat, vp: nat, bytes: Page)
    requires Inv(vm) && Roomy(vm) && OnDisk(vm, i, vp, bytes) && !InSharedWindow(vp) && Unclaimed(vm, ops, i, vp)
    ensures Inv(Run(vm, ops)) && Roomy(Run(vm, ops)) && OnDisk(Run(vm, ops), i, vp, bytes)
  {
    hide Inv, Roomy, Step;
    if ops != [] {
      var before := ops[..|ops| - 1];
      InvShape(vm);
      RunKeepsSaved(vm, before, i, vp, bytes);
      StepInv(Run(vm, before), ops[|ops| - 1]);
      StepKeepsSaved(Run(vm, before), ops[|ops| - 1], i, vp, bytes);
    }
  }

  lemma EvictedByFault(vm: Vm, j: nat, vq: nat, i: nat, vp: nat)
    requires Inv(vm) && j < |vm.pids| && Live(vm, j) && CanTake(vm) && !Entry(vm.mem, j, vq).isValid && !HasFree(vm.mem)
    requires i < |vm.pids| && !InSharedWindow(vp)
    requires Holds(vm, TakenFrame(vm), i, vp) && Entry(vm.mem, i, vp).isDirty
    ensures OnDisk(PageIn(vm, j, vq), i, vp, View(vm, i, vp))
  {
    hide Inv, CanTake, PageIn, TakeFrame, Install, GrowTable, View;
    InvShape(vm);
    var vm1 := vm.(mem := GrowTable(vm.mem, j, vq + 1));
    GrowInv(vm, j, vq + 1);
    GrowView(vm, j, vq + 1, i, vp);
    DirtyVictimIsSaved(vm1, i, vp);
    NotHeld(vm, j, vq);
    DistinctKeys(vm, i, vp, j, vq);
    PageInForm(vm, j, vq);
    var vm2 := TakeFrame(vm1);
    InstallEntries(vm2.(disk := vm2.disk - {KeyOf(vm, j, vq)}), j, vq, TakenFrame(vm1), View(vm, j, vq));
  }

  /** A fault on a saved page brings back its bytes. */
  lemma Restored(vm: Vm, i: nat, vp: nat, bytes: Page)
    requires Inv(vm) && OnDisk(vm, i, vp, bytes) && Live(vm, i) && CanTake(vm)
    ensures var r := PageIn(vm, i, vp);
      var e := Entry(r.mem, i, vp);
      e.isValid && !e.isDirty && e.physPage < |r.mem.frames| && r.mem.frames[e.physPage] == bytes
  {
    PageInForm(vm, i, vp);
    var vm1 := vm.(mem := GrowTable(vm.mem, i, vp + 1));
    GrowView(vm, i, vp + 1, i, vp);
    var vm2 := TakeFrame(vm1);
    InstallEntries(vm2.(disk := vm2.disk - {KeyOf(vm, i, vp)}), i, vp, TakenFrame(vm1), View(vm, i, vp));
  }

  // ---- When a page looks unused -----------------------------------------------------------------------

  /** Eviction makes a page look unused exactly when it takes it clean. */
  lemma TakeFrameFree(vm: Vm, j: nat, q: nat)
    requires Inv(vm) && CanTake(vm) && j < |vm.pids| && !InSharedWindow(q)
    ensures PageFree(TakeFrame(vm), j, q) <==>
              PageFree(vm, j, q)
              || (!HasFree(vm.mem) && Holds(vm, TakenFrame(vm), j, q) && !Entry(vm.mem, j, q).isDirty)
  {
    assert Backed(vm, j, q);
    if !HasFree(vm.mem) {
      var p, k := EvictEffect(vm);
      assert Owning(vm, p);
      if KeyOf(vm, j, q) in vm.disk { assert Saved(vm, KeyOf(vm, j, q)); }
    } else {
      assert TakeFrame(vm).disk == vm.disk;
    }
  }

  lemma PageInFree(vm: Vm, i: nat, vp: nat, j: nat, q: nat)
    requires Inv(vm) && i < |vm.pids| && j < |vm.pids| && Live(vm, i) && CanTake(vm)
    requires !Entry(vm.mem, i, vp).isValid && !InSharedWindow(q)
    ensures PageFree(PageIn(vm, i, vp), j, q) <==>
              !(i == j && q == vp) &&
              (PageFree(vm, j, q)
               || (!HasFree(vm.mem) && Holds(vm, TakenFrame(vm), j, q) && !Entry(vm.mem, j, q).isDirty))
  {
    hide Inv, CanTake, PageIn, TakeFrame, Install, GrowTable;
    InvShape(vm);
    var vm1 := vm.(mem := GrowTable(vm.mem, i, vp + 1));
    GrowInv(vm, i, vp + 1);
    GrowView(vm, i, vp + 1, j, q);
    PageInForm(vm, i, vp);
    TakeFrameFree(vm1, j, q);
    DistinctKeys(vm, i, vp, j, q);
    var vm2 := TakeFrame(vm1);
    InstallEntries(vm2.(disk := vm2.disk - {KeyOf(vm, i, vp)}), i, vp, TakenFrame(vm1), View(vm, i, vp));
  }

  // ---- What any operation does to a resident page --------------------------------------------------------

  /** A private page that was resident is still there as it was; or it was dirty and is on disk with its bytes; or it
      was clean and looks unused. */
  ghost predicate KeptOrEvicted(vm: Vm, r: Vm, i: nat, vp: nat)
    requires Shape(vm) && Shape(r) && i < |r.pids|
  {
    var e, d := Entry(vm.mem, i, vp), Entry(r.mem, i, vp);
    if d.isValid then d.isDirty == e.isDirty && View(r, i, vp) == View(vm, i, vp)
    else if e.isDirty then OnDisk(r, i, vp, View(vm, i, vp))
    else PageFree(r, i, vp)
  }

  lemma PageInFate(vm: Vm, j: nat, vq: nat, i: nat, vp: nat)
    requires Inv(vm) && j < |vm.pids| && Live(vm, j) && CanTake(vm) && !Entry(vm.mem, j, vq).isValid
    requires i < |vm.pids| && !InSharedWindow(vp) && Entry(vm.mem, i, vp).isValid
    ensures KeptOrEvicted(vm, PageIn(vm, j, vq), i, vp)
  {
    hide Inv, CanTake, PageIn, TakeFrame, Install, GrowTable, View, Holds, DirtyOrZero, OnDisk, PageFree;
    InvShape(vm);
    var vm1, k := vm.(mem := GrowTable(vm.mem, j, vq + 1)), KeyOf(vm, j, vq);
    GrowInv(vm, j, vq + 1);
    GrowView(vm, j, vq + 1, i, vp);
    TakeFrameView(vm1, i, vp);
    PageInForm(vm, j, vq);
    InstallEntries(TakeFrame(vm1).(disk := TakeFrame(vm1).disk - {k}), j, vq, TakenFrame(vm1), View(vm, j, vq));
    PageInView(vm, j, vq, i, vp);
    PageInFree(vm, j, vq, i, vp);
    if !HasFree(vm.mem) && Holds(vm, TakenFrame(vm), i, vp) && Entry(vm.mem, i, vp).isDirty {
      EvictedByFault(vm, j, vq, i, vp);
    }
  }

  lemma {:induction false} GrabRangeFate(vm: Vm, j: nat, start: nat, n: nat, i: nat, vp: nat)
    requires Inv(vm) && j < |vm.pids| && start + n <= |vm.mem.tables[j]| && CanTake(vm) && RunFree(vm, j, start, n)
    requires i < |vm.pids| && !InSharedWindow(vp) && Entry(vm.mem, i, vp).isValid
    ensures KeptOrEvicted(vm, GrabRange(vm, j, start, n), i, vp)
  {
    hide Inv, Grab, PageIn, CanTake, RunFree, View, OnDisk, PageFree;
    InvShape(vm);
    if n > 0 {
      var v, vq := GrabRange(vm, j, start, n - 1), start + n - 1;
      GrabNext(vm, j, start, n);
      GrabRangeFate(vm, j, start, n - 1, i, vp);
      ResidentIsNotInRange(vm, j, start, n, i, vp);
      FreeIsUnmapped(v, j, vq);
      GrabIsPageIn(v, j, vq);
      if Entry(v.mem, i, vp).isValid {
        PageInFate(v, j, vq, i, vp);
      } else if Entry(vm.mem, i, vp).isDirty {
        PageInKeepsSaved(v, j, vq, i, vp, View(vm, i, vp));
        SavedIsAway(Grab(v, j, vq), i, vp, View(vm, i, vp));
      } else {
        PageInKeepsFree(v, j, vq, i, vp);
        FreeIsUnmapped(Grab(v, j, vq), i, vp);
      }
    }
  }

  lemma ResidentIsNotInRange(vm: Vm, j: nat, start: nat, n: nat, i: nat, vp: nat)
    requires j < |vm.pids| && i < |vm.pids| && RunFree(vm, j, start, n) && Entry(vm.mem, i, vp).isValid
    ensures !(i == j && start <= vp < start + n)
  {
    assert i == j && start <= vp < start + n ==> PageFree(vm, j, vp);
  }

  lemma SavedIsAway(vm: Vm, i: nat, vp: nat, bytes: Page)
    requires Shape(vm) && OnDisk(vm, i, vp, bytes)
    ensures !Entry(vm.mem, i, vp).isValid
  {}

  lemma AllocFate(vm: Vm, j: nat, bytes: int, i: nat, vp: nat)
    requires Inv(vm) && j < |vm.pids| && Live(vm, j) && CanTake(vm)
    requires i < |vm.pids| && !InSharedWindow(vp) && Entry(vm.mem, i, vp).isValid
    ensures i < |Alloc(vm, j, bytes).0.pids| && KeptOrEvicted(vm, Alloc(vm, j, bytes).0, i, vp)
  {
    hide Inv, Alloc, GrabRange, CanTake, RunFree, GrowTable, FirstFit;
    InvShape(vm);
    AllocForm(vm, j, bytes);
    var (vm1, start, n) := AllocPlan(vm, j, bytes);
    GrowView(vm, j, HEAP_LAST + 1, i, vp);
    GrabRangeFate(vm1, j, start, n, i, vp);
    SameFate(vm, vm1, GrabRange(vm1, j, start, n), Alloc(vm, j, bytes).0, i, vp);
  }

  lemma SameFate(vm: Vm, vm1: Vm, r1: Vm, r: Vm, i: nat, vp: nat)
    requires Shape(vm) && Shape(vm1) && Shape(r1) && Shape(r) && i < |r1.pids| && KeptOrEvicted(vm1, r1, i, vp)
    requires Entry(vm1.mem, i, vp) == Entry(vm.mem, i, vp) && View(vm1, i, vp) == View(vm, i, vp) && r == r1.(heaps := r.heaps)
    ensures KeptOrEvicted(vm, r, i, vp)
  {}

  /** Operations that evict nothing leave the page as it was. */
  lemma AccessFate(vm: Vm, j: nat, va: Word, b: Byte, i: nat, vp: nat)
    requires Inv(vm) && j < |vm.pids| && i < |vm.pids| && !InSharedWindow(vp) && Entry(vm.mem, i, vp).isValid
    ensures KeptOrEvicted(vm, vm.(mem := ReadByte(vm.mem, j, vm.sizes[j], va).mem), i, vp)
    ensures var r := vm.(mem := WriteByte(vm.mem, j, vm.sizes[j], va, b).mem);
      Entry(r.mem, i, vp).isValid && (!(j == i && va / PAGE_SIZE == vp) ==> KeptOrEvicted(vm, r, i, vp))
  {
    ReadView(vm, j, vm.sizes[j], va, i, vp);
    WriteView(vm, j, vm.sizes[j], va, b, i, vp);
    hide View, Inv;
  }

  lemma {:induction false} ReleaseRangeFate(vm: Vm, j: nat, start: nat, n: nat, i: nat, vp: nat)
    requires Inv(vm) && j < |vm.pids| && i < |vm.pids| && start + n <= HEAP_LAST + 1 && !(i == j && start <= vp < start + n)
    ensures Entry(ReleaseRange(vm, j, start, n).mem, i, vp) == Entry(vm.mem, i, vp)
  {
    hide Inv, Release;
    InvShape(vm);
    if n > 0 {
      ReleaseRangeFate(vm, j, start, n - 1, i, vp);
      ReleaseRangeInv(vm, j, start, n - 1);
      ReleaseOther(ReleaseRange(vm, j, start, n - 1), j, start + n - 1, i, vp);
    }
  }

  lemma ReleaseOther(vm: Vm, j: nat, vq: nat, i: nat, vp: nat)
    requires Shape(vm) && j < |vm.pids| && i < |vm.pids| && !(i == j && vp == vq)
    ensures Entry(Release(vm, j, vq).mem, i, vp) == Entry(vm.mem, i, vp)
  {}

  lemma FreeFate(vm: Vm, j: nat, a: nat, i: nat, vp: nat)
    requires Inv(vm) && j < |vm.pids| && i < |vm.pids| && Entry(vm.mem, i, vp).isValid
    requires !(j == i && a in vm.heaps[i] && a / PAGE_SIZE <= vp < a / PAGE_SIZE + vm.heaps[i][a])
    ensures i < |Free(vm, j, a).pids| && KeptOrEvicted(vm, Free(vm, j, a), i, vp)
  {
    FreeView(vm, j, a, i, vp);
    if a in vm.heaps[j] {
      assert HeapOk(vm.heaps[j]);
      ReleaseRangeFate(vm, j, a / PAGE_SIZE, vm.heaps[j][a], i, vp);
    }
    hide View, ReleaseRange, Inv;
  }

  lemma {:induction false} WriteCodeOthers(m: Mem, i: nat, codeSize: nat, code: seq<Byte>, n: nat, j: nat)
    requires i < |m.tables| && n <= |code| <= 0xE000 && j < |m.tables| && j != i
    ensures WriteCode(m, i, codeSize, code, n).mem.tables[j] == m.tables[j]
  {
    if n > 0 { WriteCodeOthers(m, i, codeSize, code, n - 1, j); }
  }

  lemma CreateFate(vm: Vm, code: seq<Byte>, i: nat, vp: nat)
    requires Inv(vm) && |code| <= 0xE000 && i < |vm.pids| && !InSharedWindow(vp) && Entry(vm.mem, i, vp).isValid
    ensures i < |Create(vm, code).0.pids| && KeptOrEvicted(vm, Create(vm, code).0, i, vp)
  {
    hide Inv, Create, View, OnDisk, PageFree;
    InvShape(vm);
    CreateView(vm, code, i, vp);
    CreateEntries(vm, code, i, vp);
  }

  lemma CreateEntries(vm: Vm, code: seq<Byte>, i: nat, vp: nat)
    requires Inv(vm) && |code| <= 0xE000 && i < |vm.pids|
    ensures i < |Create(vm, code).0.pids| && Entry(Create(vm, code).0.mem, i, vp) == Entry(vm.mem, i, vp)
  {
    hide Inv, LoadPages, WriteCode;
    InvShape(vm);
    var n0, vm1 := |vm.pids|, AddProcess(vm, |code|);
    if |code| != 0 {
      var n := (CODE_BASE + |code| - 1) / PAGE_SIZE - CODE_PAGE + 1;
      LoadPagesEffect(vm1, n0, CODE_PAGE, n);
      var (vm2, ok) := LoadPages(vm1, n0, CODE_PAGE, n);
      if ok { WriteCodeOthers(vm2.mem, n0, |code|, code, |code|, i); }
    }
  }

  predicate WritesPage(op: Op, i: nat, vp: nat) {
    op.Write? && op.proc == i && op.vaddr / PAGE_SIZE == vp
  }

  /** Whatever the operation and whoever issues it: a resident private page that it neither writes, frees nor ends the
      process of stays as it is, or is evicted, to disk with exactly its bytes if it is dirty, and to nowhere if it is
      clean. */
  lemma StepFate(vm: Vm, op: Op, i: nat, vp: nat)
    requires Inv(vm) && Roomy(vm) && Shape(vm) && i < |vm.pids| && !InSharedWindow(vp) && Entry(vm.mem, i, vp).isValid
    requires !Claims(vm, op, i, vp) && !WritesPage(op, i, vp)
    ensures i < |Step(vm, op).pids| && KeptOrEvicted(vm, Step(vm, op), i, vp)
  {
    hide Inv, Roomy, View, PageIn, Alloc, Free, MapShared, Cleanup, Create, ReadByte, WriteByte, OnDisk, PageFree;
    if Enabled(vm, op) {
      match op
      case Read(j, va) => AccessFate(vm, j, va, 0, i, vp);
      case Write(j, va, b) => AccessFate(vm, j, va, b, i, vp);
      case PageFault(j, vq) => PageInFate(vm, j, vq, i, vp);
      case AllocHeap(j, n) => AllocFate(vm, j, n, i, vp);
      case FreeHeap(j, a) => FreeFate(vm, j, a, i, vp);
      case MapRegion(j, r) =>
        MapSharedEffect(vm, j, r);
        MapSharedView(vm, j, r, i, vp);
      case Exit(j) => ExitFate(vm, j, i, vp);
      case Spawn(code) => CreateFate(vm, code, i, vp);
    }
  }

  lemma ExitFate(vm: Vm, j: nat, i: nat, vp: nat)
    requires Inv(vm) && j < |vm.pids| && i < |vm.pids| && i != j && Entry(vm.mem, i, vp).isValid
    ensures i < |Cleanup(vm, j).pids| && KeptOrEvicted(vm, Cleanup(vm, j), i, vp)
  {
    CleanupView(vm, j, i, vp);
    hide View;
  }

  /** A dirty page that an operation evicts is on disk afterwards with exactly its bytes. */
  lemma EvictedIsSaved(vm: Vm, op: Op, i: nat, vp: nat)
    requires Inv(vm) && Roomy(vm) && Shape(vm) && i < |vm.pids| && !InSharedWindow(vp) && !Claims(vm, op, i, vp)
    requires Entry(vm.mem, i, vp).isValid && Entry(vm.mem, i, vp).isDirty && !Entry(Step(vm, op).mem, i, vp).isValid
    ensures OnDisk(Step(vm, op), i, vp, View(vm, i, vp))
  {
    hide Inv, Roomy, View, ReadByte, WriteByte;
    if WritesPage(op, i, vp) {
      AccessFate(vm, i, op.vaddr, op.val, i, vp);
    } else {
      StepFate(vm, op, i, vp);
    }
  }

  /** The whole trip: a dirty page evicted by any operation of anyone, any run without a claim, then its own fault: the
      page is resident again with the bytes it had. */
  lemma DirtyRoundTrip(vm: Vm, op: Op, ops: seq<Op>, i: nat, vp: nat)
    requires Inv(vm) && Roomy(vm) && Shape(vm) && i < |vm.pids| && !InSharedWindow(vp) && !Claims(vm, op, i, vp)
    requires Entry(vm.mem, i, vp).isValid && Entry(vm.mem, i, vp).isDirty && !Entry(Step(vm, op).mem, i, vp).isValid
    requires Unclaimed(Step(vm, op), ops, i, vp) && Enabled(Run(Step(vm, op), ops), PageFault(i, vp))
    ensures var r := Step(Run(Step(vm, op), ops), PageFault(i, vp));
      var e := Entry(r.mem, i, vp);
      e.isValid && e.physPage < |r.mem.frames| && r.mem.frames[e.physPage] == View(vm, i, vp)
  {
    hide Inv, Roomy, View, PageIn, Run, OnDisk;
    var vm1 := Step(vm, op);
    EvictedIsSaved(vm, op, i, vp);
    StepInv(vm, op);
    RunKeepsSaved(vm1, ops, i, vp, View(vm, i, vp));
    Restored(Run(vm1, ops), i, vp, View(vm, i, vp));
  }

  // ---- The second eviction -----------------------------------------------------------------------------------

  /** Through this run the page stays resident and nobody writes, frees or ends it. */
  ghost predicate LeftAlone(vm: Vm, ops: seq<Op>, i: nat, vp: nat)
    requires Shape(vm)
  {
    ops == [] ||
    (LeftAlone(vm, ops[..|ops| - 1], i, vp)
     && var v, op := Run(vm, ops[..|ops| - 1]), ops[|ops| - 1];
        i < |v.pids| && !Claims(v, op, i, vp) && !WritesPage(op, i, vp) && Entry(Step(v, op).mem, i, vp).isValid)
  }

  lemma {:induction false} CleanStays(vm: Vm, ops: seq<Op>, i: nat, vp: nat)
    requires Inv(vm) && Roomy(vm) && Shape(vm) && i < |vm.pids| && !InSharedWindow(vp) && LeftAlone(vm, ops, i, vp)
    requires Entry(vm.mem, i, vp).isValid && !Entry(vm.mem, i, vp).isDirty
    ensures var r := Run(vm, ops);
      && Inv(r) && Roomy(r) && i < |r.pids| && View(r, i, vp) == View(vm, i, vp)
      && Entry(r.mem, i, vp).isValid && !Entry(r.mem, i, vp).isDirty
  {
    hide Inv, Roomy, View, Step, Claims;
    if ops != [] {
      var before, op := ops[..|ops| - 1], ops[|ops| - 1];
      CleanStays(vm, before, i, vp);
      StepInv(Run(vm, before), op);
      StepFate(Run(vm, before), op, i, vp);
    }
  }

  /** A page back from disk is clean; whenever it is then evicted before a write, by any operation of anyone, it reads
      as zeros, whatever it held; and that eviction was not safe unless the page was zero. */
  lemma SecondEvictionForgets(vm: Vm, i: nat, vp: nat, ops: seq<Op>, op: Op)
    requires Inv(vm) && Roomy(vm) && Shape(vm) && i < |vm.pids| && Live(vm, i) && !InSharedWindow(vp)
    requires OnDisk(vm, i, vp, View(vm, i, vp)) && LeftAlone(Step(vm, PageFault(i, vp)), ops, i, vp)
    requires var w := Run(Step(vm, PageFault(i, vp)), ops);
      i < |w.pids| && !Claims(w, op, i, vp) && !Entry(Step(w, op).mem, i, vp).isValid
    ensures Enabled(vm, PageFault(i, vp))
    ensures var w := Run(Step(vm, PageFault(i, vp)), ops);
      && View(w, i, vp) == View(vm, i, vp) && View(Step(w, op), i, vp) == ZeroPage()
      && (SafeOp(w, op) ==> View(vm, i, vp) == ZeroPage())
  {
    hide Inv, Roomy, View, PageIn, Run, CanTake, OnDisk, Claims, SafeOp, LeftAlone;
    BackIsClean(vm, i, vp);
    var back := Step(vm, PageFault(i, vp));
    CleanStays(back, ops, i, vp);
    var w := Run(back, ops);
    EvictedCleanIsZero(w, op, i, vp);
    if SafeOp(w, op) { SafeStepIsFlat(w, op, i, vp); NotClaimedIsFlat(w, op, i, vp, View(w, i, vp)); }
  }

  lemma BackIsClean(vm: Vm, i: nat, vp: nat)
    requires Inv(vm) && Roomy(vm) && Shape(vm) && i < |vm.pids| && Live(vm, i) && !InSharedWindow(vp)
    requires OnDisk(vm, i, vp, View(vm, i, vp))
    ensures Enabled(vm, PageFault(i, vp))
    ensures var back := Step(vm, PageFault(i, vp));
      && Inv(back) && Roomy(back) && i < |back.pids| && View(back, i, vp) == View(vm, i, vp)
      && Entry(back.mem, i, vp).isValid && !Entry(back.mem, i, vp).isDirty
  {
    hide Inv, View, PageIn, CanTake;
    AlwaysAFrame(vm);
    StepInv(vm, PageFault(i, vp));
    Restored(vm, i, vp, View(vm, i, vp));
    NotHeld(vm, i, vp);
    PageInView(vm, i, vp, i, vp);
  }

  /** A clean page that an operation evicts reads as zeros. */
  lemma EvictedCleanIsZero(vm: Vm, op: Op, i: nat, vp: nat)
    requires Inv(vm) && Roomy(vm) && Shape(vm) && i < |vm.pids| && !InSharedWindow(vp) && !Claims(vm, op, i, vp)
    requires Entry(vm.mem, i, vp).isValid && !Entry(vm.mem, i, vp).isDirty && !Entry(Step(vm, op).mem, i, vp).isValid
    ensures !WritesPage(op, i, vp) && i < |Step(vm, op).pids| && PageFree(Step(vm, op), i, vp)
    ensures View(Step(vm, op), i, vp) == ZeroPage()
  {
    hide Inv, Roomy, ReadByte, WriteByte;
    if WritesPage(op, i, vp) {
      AccessFate(vm, i, op.vaddr, op.val, i, vp);
    } else {
      StepFate(vm, op, i, vp);
    }
  }

  lemma NotClaimedIsFlat(vm: Vm, op: Op, i: nat, vp: nat, page: Page)
    requires Shape(vm) && i < |vm.pids| && !Claims(vm, op, i, vp) && !WritesPage(op, i, vp)
    ensures FlatStep(vm, op, i, vp, page) == page
  {}
}
