/** The five structures of demand paging agree in every reachable state: the page tables, the used
    map, the LRU list, the frame owners and the disk. */
module FrameInvariant {
  import opened Basics
  import opened Lru
  import opened Memory
  import opened Paging

  // ---- The invariant -----------------------------------------------------------------------

  /** A valid entry names a frame owned by exactly this page, or the shared frame of its window slot;
      an invalid one is unmapped. */
  ghost predicate Backed(vm: Vm, i: nat, vp: nat)
    requires Shape(vm) && i < |vm.pids|
  {
    var e := Entry(vm.mem, i, vp);
    if e.isValid then
      || (e.physPage in vm.owner && vm.owner[e.physPage] == KeyOf(vm, i, vp))
      || (InSharedWindow(vp) && e.physPage == vm.shared[vp - SHARED_PAGE])
    else
      e.physPage == UNMAPPED
  }

  /** The page an owned frame is recorded for is resident, and in that frame unless MapSharedMem
      mapped a shared frame over it. */
  ghost predicate Owning(vm: Vm, f: nat)
    requires Shape(vm) && f in vm.owner
  {
    var k := vm.owner[f];
    && 0 < k.pid < vm.nextPid
    && forall i | 0 <= i < |vm.pids| && vm.pids[i] == k.pid ::
         var e := Entry(vm.mem, i, k.vpage);
         e.isValid && (e.physPage == f || InSharedWindow(k.vpage))
  }

  /** A saved page belongs to a process and, outside the shared window, is not resident. */
  ghost predicate Saved(vm: Vm, k: Key)
    requires Shape(vm)
  {
    && k.pid in vm.pids
    && forall i | 0 <= i < |vm.pids| && vm.pids[i] == k.pid ::
         k.vpage < |vm.mem.tables[i]| && (InSharedWindow(k.vpage) || !Entry(vm.mem, i, k.vpage).isValid)
  }

  /** Used frames are the LRU members are the shared frames plus the owned frames; `hole` are frames
      taken but not installed yet. */
  ghost predicate FramesInv(vm: Vm, hole: set<nat>)
    requires Shape(vm)
  {
    && NoDup(vm.mem.lru) && NoDup(vm.shared)
    && (forall f | f in vm.shared || f in vm.owner || f in hole :: f < |vm.mem.used|)
    && (forall f | 0 <= f < |vm.mem.used| :: vm.mem.used[f] <==> f in vm.shared || f in vm.owner || f in hole)
    && (forall f | f in vm.owner || f in hole :: f !in vm.shared)
    && (forall f | f in hole :: f !in vm.owner)
    && (forall f | f in vm.mem.lru :: vm.mem.used[f])
    && (forall f | f in vm.shared || f in vm.owner :: f in vm.mem.lru)
  }

  ghost predicate TablesInv(vm: Vm)
    requires Shape(vm)
  {
    && (forall i: nat, vp: nat | i < |vm.pids| :: Backed(vm, i, vp))
    && (forall f | f in vm.owner :: Owning(vm, f))
    && (forall f, g | f in vm.owner && g in vm.owner && vm.owner[f] == vm.owner[g] :: f == g)
  }

  ghost predicate HeapOk(h: map<nat, nat>) {
    forall a | a in h :: a % PAGE_SIZE == 0 && h[a] > 0 && HEAP_FIRST <= a / PAGE_SIZE
                         && a / PAGE_SIZE + h[a] <= HEAP_LAST + 1
  }

  ghost predicate RecordsInv(vm: Vm)
    requires Shape(vm)
  {
    && NoDup(vm.pids)
    && vm.nextPid > 0
    && (forall pid | pid in vm.pids :: 0 < pid < vm.nextPid)
    && (forall k | k in vm.disk :: Saved(vm, k))
    && (forall i | 0 <= i < |vm.heaps| :: HeapOk(vm.heaps[i]))
    && (forall i | 0 <= i < |vm.pids| && !Live(vm, i) :: vm.heaps[i] == map[])
  }

  ghost predicate InvHole(vm: Vm, hole: set<nat>) {
    Shape(vm) && FramesInv(vm, hole) && TablesInv(vm) && RecordsInv(vm)
  }

  ghost predicate Inv(vm: Vm) {
    InvHole(vm, {})
  }

  /** A process exists only where there is a frame to evict. */
  ghost predicate Roomy(vm: Vm) {
    |vm.pids| > 0 ==> |vm.mem.frames| > NUM_SHARED
  }

  lemma InvShape(vm: Vm)
    requires Inv(vm)
    ensures Shape(vm)
  {}

  // ---- Consequences --------------------------------------------------------------------------

  /** No two resident private pages share a frame. */
  lemma PrivateFramesDisjoint(vm: Vm, i: nat, vp: nat, j: nat, vq: nat)
    requires Inv(vm) && i < |vm.pids| && j < |vm.pids| && !InSharedWindow(vp) && !InSharedWindow(vq)
    requires Entry(vm.mem, i, vp).isValid && Entry(vm.mem, j, vq).isValid
    requires Entry(vm.mem, i, vp).physPage == Entry(vm.mem, j, vq).physPage
    ensures i == j && vp == vq
  {
    assert Backed(vm, i, vp) && Backed(vm, j, vq);
  }

  /** A private page and a shared one never meet in a frame either. */
  lemma PrivateFrameUnshared(vm: Vm, i: nat, vp: nat)
    requires Inv(vm) && i < |vm.pids| && !InSharedWindow(vp) && Entry(vm.mem, i, vp).isValid
    ensures Entry(vm.mem, i, vp).physPage < |vm.mem.frames|
    ensures Entry(vm.mem, i, vp).physPage !in vm.shared
    ensures Entry(vm.mem, i, vp).physPage in vm.owner
    ensures vm.owner[Entry(vm.mem, i, vp).physPage] == KeyOf(vm, i, vp)
  {
    assert Backed(vm, i, vp);
  }

  /** isValid iff physPage is not UNMAPPED. */
  lemma ValidIffMapped(vm: Vm, i: nat, vp: nat)
    requires Inv(vm) && i < |vm.pids|
    ensures Entry(vm.mem, i, vp).isValid <==> Entry(vm.mem, i, vp).physPage != UNMAPPED
  {
    assert Backed(vm, i, vp);
  }

  /** With a frame beyond the shared ones, eviction always finds a victim when no frame is free. */
  lemma AlwaysAFrame(vm: Vm)
    requires Inv(vm) && |vm.mem.frames| > NUM_SHARED
    ensures CanTake(vm)
  {
    if !HasFree(vm.mem) && Victim(vm.mem.lru, vm.shared).None? {
      forall f: nat | f < |vm.mem.frames| ensures f in vm.shared {
        assert vm.mem.used[f];
      }
      NoDupBound(vm.shared, |vm.mem.frames|);
      assert false;
    }
  }

  /** FramesInv looks at the used map, the LRU list and the owners only. */
  lemma SameFrames(vm: Vm, r: Vm, hole: set<nat>)
    requires Shape(vm) && Shape(r) && FramesInv(vm, hole)
    requires r.mem.used == vm.mem.used && r.mem.lru == vm.mem.lru && r.shared == vm.shared && r.owner == vm.owner
    ensures FramesInv(r, hole)
  {}

  // ---- Eviction keeps it -----------------------------------------------------------------------

  /** What eviction does: page k of process j loses frame p, and goes to disk if it is dirty. */
  lemma EvictEffect(vm: Vm) returns (p: nat, k: Key)
    requires Inv(vm) && Victim(vm.mem.lru, vm.shared).Some?
    ensures p == Victim(vm.mem.lru, vm.shared).value && p in vm.owner && vm.owner[p] == k
    ensures var r := Evict(vm);
      && r == vm.(mem := r.mem, owner := vm.owner - {p}, disk := r.disk)
      && r.mem == vm.mem.(tables := r.mem.tables, lru := Without(vm.mem.lru, {p}))
      && |r.mem.tables| == |vm.mem.tables|
      && (forall i | 0 <= i < |vm.pids| :: |r.mem.tables[i]| == |vm.mem.tables[i]|)
      && (forall i: nat, vp: nat | i < |vm.pids| && KeyOf(vm, i, vp) != k :: Entry(r.mem, i, vp) == Entry(vm.mem, i, vp))
      && (forall i | 0 <= i < |vm.pids| && vm.pids[i] == k.pid ::
            var e := Entry(vm.mem, i, k.vpage);
            && e.isValid
            && Entry(r.mem, i, k.vpage) == e.(isValid := false, physPage := UNMAPPED)
            && r.disk == if e.isDirty then vm.disk[k := vm.mem.frames[p]] else vm.disk)
      && (k.pid !in vm.pids ==> r.disk == vm.disk)
  {
    p := Victim(vm.mem.lru, vm.shared).value;
    k := vm.owner[p];
    assert Owning(vm, p);
  }

  lemma EvictFrames(vm: Vm)
    requires Inv(vm) && Victim(vm.mem.lru, vm.shared).Some?
    ensures FramesInv(Evict(vm), {Victim(vm.mem.lru, vm.shared).value})
  {
    var p, k := EvictEffect(vm);
    WithoutNoDup(vm.mem.lru, {p});
    WithoutMembers(vm.mem.lru, {p});
  }

  lemma EvictTables(vm: Vm)
    requires Inv(vm) && Victim(vm.mem.lru, vm.shared).Some?
    ensures TablesInv(Evict(vm))
  {
    var p, k := EvictEffect(vm);
    var r := Evict(vm);
    forall i: nat, vp: nat | i < |r.pids| ensures Backed(r, i, vp) {
      assert Backed(vm, i, vp);
    }
    forall f | f in r.owner ensures Owning(r, f) {
      assert Owning(vm, f);
    }
  }

  lemma EvictRecords(vm: Vm)
    requires Inv(vm) && Victim(vm.mem.lru, vm.shared).Some?
    ensures RecordsInv(Evict(vm))
  {
    var p, k := EvictEffect(vm);
    var r := Evict(vm);
    forall q | q in r.disk ensures Saved(r, q) {
      if q != k { assert Saved(vm, q); }
    }
  }

  lemma EvictInv(vm: Vm)
    requires Inv(vm) && Victim(vm.mem.lru, vm.shared).Some?
    ensures InvHole(Evict(vm), {Victim(vm.mem.lru, vm.shared).value})
  {
    EvictFrames(vm);
    EvictTables(vm);
    EvictRecords(vm);
  }

  lemma TakeFrameInv(vm: Vm)
    requires Inv(vm) && CanTake(vm)
    ensures InvHole(TakeFrame(vm), {TakenFrame(vm)})
  {
    if HasFree(vm.mem) {
      var p := TakenFrame(vm);
      var r := TakeFrame(vm);
      WithoutNoDup(vm.mem.lru, {p});
      WithoutMembers(vm.mem.lru, {p});
      forall i: nat, vp: nat | i < |r.pids| ensures Backed(r, i, vp) {
        assert Backed(vm, i, vp);
      }
      forall f | f in r.owner ensures Owning(r, f) { assert Owning(vm, f); }
      forall q | q in r.disk ensures Saved(r, q) { assert Saved(vm, q); }
    } else {
      EvictInv(vm);
    }
  }

  /** Taking a frame leaves every invalid entry invalid, and saves no page that was not resident. */
  lemma TakeFrameKeeps(vm: Vm, i: nat, vp: nat)
    requires Inv(vm) && CanTake(vm) && i < |vm.pids|
    requires !Entry(vm.mem, i, vp).isValid
    ensures Entry(TakeFrame(vm).mem, i, vp) == Entry(vm.mem, i, vp)
    ensures KeyOf(vm, i, vp) in TakeFrame(vm).disk <==> KeyOf(vm, i, vp) in vm.disk
    ensures KeyOf(vm, i, vp) in vm.disk ==> TakeFrame(vm).disk[KeyOf(vm, i, vp)] == vm.disk[KeyOf(vm, i, vp)]
  {
    if !HasFree(vm.mem) {
      var p := Victim(vm.mem.lru, vm.shared).value;
      assert p in vm.owner && Owning(vm, p);
    }
  }

  lemma InstallFrames(vm: Vm, i: nat, vp: nat, p: nat, content: Page)
    requires Shape(vm) && FramesInv(vm, {p}) && i < |vm.pids| && vp < |vm.mem.tables[i]|
    ensures FramesInv(Install(vm, i, vp, p, content), {})
  {
    WithoutNoDup(vm.mem.lru, {p});
    WithoutMembers(vm.mem.lru, {p});
  }

  lemma InstallEntries(vm: Vm, i: nat, vp: nat, p: nat, content: Page)
    requires Shape(vm) && i < |vm.pids| && vp < |vm.mem.tables[i]| && p < |vm.mem.frames|
    ensures var r := Install(vm, i, vp, p, content);
      && Entry(r.mem, i, vp) == PageEntry(p, true, false)
      && (forall j, vq: nat | 0 <= j < |vm.pids| && !(j == i && vq == vp) :: Entry(r.mem, j, vq) == Entry(vm.mem, j, vq))
      && (forall j | 0 <= j < |vm.pids| :: |r.mem.tables[j]| == |vm.mem.tables[j]|)
      && r.disk == vm.disk && r.pids == vm.pids
  {}

  lemma InstallInv(vm: Vm, i: nat, vp: nat, p: nat, content: Page)
    requires InvHole(vm, {p}) && i < |vm.pids| && vp < |vm.mem.tables[i]|
    requires !Entry(vm.mem, i, vp).isValid && KeyOf(vm, i, vp) !in vm.disk
    ensures Inv(Install(vm, i, vp, p, content))
  {
    var r := Install(vm, i, vp, p, content);
    InstallFrames(vm, i, vp, p, content);
    InstallEntries(vm, i, vp, p, content);
    assert p !in vm.owner;
    forall j: nat, vq: nat | j < |r.pids| ensures Backed(r, j, vq) {
      assert Backed(vm, j, vq);
    }
    assert vm.pids[i] in vm.pids;
    forall f | f in r.owner ensures Owning(r, f) {
      if f != p { assert Owning(vm, f); }
    }
    forall f, g | f in r.owner && g in r.owner && r.owner[f] == r.owner[g] ensures f == g {
      if f != p { assert Owning(vm, f); }
      if g != p { assert Owning(vm, g); }
    }
    forall q | q in r.disk ensures Saved(r, q) { assert Saved(vm, q); }
  }

  lemma GrowInv(vm: Vm, i: nat, n: nat)
    requires Inv(vm) && i < |vm.pids|
    requires Live(vm, i)
    ensures Inv(vm.(mem := GrowTable(vm.mem, i, n)))
    ensures CanTake(vm) ==> CanTake(vm.(mem := GrowTable(vm.mem, i, n)))
    ensures forall j: nat, vq: nat :: Entry(GrowTable(vm.mem, i, n), j, vq) == Entry(vm.mem, j, vq)
  {
    var r := vm.(mem := GrowTable(vm.mem, i, n));
    forall j: nat, vq: nat ensures Entry(r.mem, j, vq) == Entry(vm.mem, j, vq) {}
    forall j: nat, vq: nat | j < |r.pids| ensures Backed(r, j, vq) { assert Backed(vm, j, vq); }
    forall f | f in r.owner ensures Owning(r, f) { assert Owning(vm, f); }
    forall q | q in r.disk ensures Saved(r, q) { assert Saved(vm, q); }
  }

  lemma ForgetSavedInv(vm: Vm, k: Key, hole: set<nat>)
    requires InvHole(vm, hole)
    ensures InvHole(vm.(disk := vm.disk - {k}), hole)
  {
    var r := vm.(disk := vm.disk - {k});
    forall j: nat, vq: nat | j < |r.pids| ensures Backed(r, j, vq) { assert Backed(vm, j, vq); }
    forall f | f in r.owner ensures Owning(r, f) { assert Owning(vm, f); }
    forall q | q in r.disk ensures Saved(r, q) { assert Saved(vm, q); }
  }

  lemma GrowsTo(vm: Vm, i: nat, n: nat)
    requires Shape(vm) && i < |vm.pids|
    ensures Shape(vm.(mem := GrowTable(vm.mem, i, n))) && |GrowTable(vm.mem, i, n).tables[i]| >= n
  {}

  /** A page fault on a page that is not resident. */
  lemma PageInInv(vm: Vm, i: nat, vp: nat)
    requires Inv(vm) && Live(vm, i) && i < |vm.pids| && CanTake(vm) && !Entry(vm.mem, i, vp).isValid
    ensures Inv(PageIn(vm, i, vp))
  {
    hide InvHole, TakeFrame, CanTake, Install, GrowTable;
    InvShape(vm);
    var vm1 := vm.(mem := GrowTable(vm.mem, i, vp + 1));
    GrowInv(vm, i, vp + 1);
    GrowsTo(vm, i, vp + 1);
    TakeFrameInv(vm1);
    TakeFrameKeeps(vm1, i, vp);
    var vm2, p, k := TakeFrame(vm1), TakenFrame(vm1), KeyOf(vm, i, vp);
    ForgetSavedInv(vm2, k, {p});
    if k in vm2.disk {
      InstallInv(vm2.(disk := vm2.disk - {k}), i, vp, p, vm2.disk[k]);
    } else {
      InstallInv(vm2, i, vp, p, if HasFree(vm1.mem) then vm2.mem.frames[p] else ZeroPage());
    }
  }

  /** On an unused page the allocator's step is a page fault. */
  lemma GrabIsPageIn(vm: Vm, i: nat, vp: nat)
    requires Inv(vm) && i < |vm.pids| && vp < |vm.mem.tables[i]| && CanTake(vm)
    requires PageFree(vm, i, vp)
    ensures Grab(vm, i, vp) == PageIn(vm, i, vp)
  {
    assert vm.(mem := GrowTable(vm.mem, i, vp + 1)) == vm;
    TakeFrameKeeps(vm, i, vp);
  }

  // ---- Every other operation keeps it -----------------------------------------------------------

  /** Changes of content, dirty bits and recency alone keep the invariant. */
  lemma TouchedInv(vm: Vm, m: Mem, p: nat)
    requires Inv(vm) && p in vm.mem.lru
    requires m.used == vm.mem.used && |m.frames| == |vm.mem.frames| && m.lru == Touch(vm.mem.lru, p)
    requires |m.tables| == |vm.mem.tables|
    requires forall j | 0 <= j < |m.tables| :: |m.tables[j]| == |vm.mem.tables[j]|
    requires forall j: nat, vq: nat :: var e, d := Entry(m, j, vq), Entry(vm.mem, j, vq);
               e.isValid == d.isValid && e.physPage == d.physPage
    ensures Inv(vm.(mem := m))
  {
    var r := vm.(mem := m);
    WithoutNoDup(vm.mem.lru, {p});
    WithoutMembers(vm.mem.lru, {p});
    forall j: nat, vq: nat | j < |r.pids| ensures Backed(r, j, vq) { assert Backed(vm, j, vq); }
    forall f | f in r.owner ensures Owning(r, f) { assert Owning(vm, f); }
    forall q | q in r.disk ensures Saved(r, q) { assert Saved(vm, q); }
  }

  lemma TranslateInv(vm: Vm, i: nat, codeSize: nat, va: Word, w: bool)
    requires Inv(vm) && i < |vm.pids|
    ensures Inv(vm.(mem := Translate(vm.mem, i, codeSize, va, w).mem))
    ensures var r := Translate(vm.mem, i, codeSize, va, w);
      && (r.Fault? ==> r.mem == vm.mem && !Entry(vm.mem, i, r.vpage).isValid)
      && (r.Error? <==> !IsValidVaddr(codeSize, va)) && (r.Error? ==> r.mem == vm.mem)
  {
    var r := Translate(vm.mem, i, codeSize, va, w);
    var vp := va / PAGE_SIZE;
    assert Backed(vm, i, vp);
    if r.Done? {
      TouchedInv(vm, r.mem, Entry(vm.mem, i, vp).physPage);
    } else {
      assert vm.(mem := vm.mem) == vm;
    }
  }

  lemma WriteInv(vm: Vm, i: nat, codeSize: nat, va: Word, b: Byte)
    requires Inv(vm) && i < |vm.pids|
    ensures Inv(vm.(mem := WriteByte(vm.mem, i, codeSize, va, b).mem))
  {
    TranslateInv(vm, i, codeSize, va, true);
    var r := WriteByte(vm.mem, i, codeSize, va, b);
    if r.Done? {
      var vp := va / PAGE_SIZE;
      assert Backed(vm, i, vp);
      TouchedInv(vm, r.mem, Entry(vm.mem, i, vp).physPage);
    }
  }

  lemma GrabInv(vm: Vm, i: nat, vp: nat)
    requires Inv(vm) && i < |vm.pids| && vp < |vm.mem.tables[i]| && CanTake(vm)
    requires PageFree(vm, i, vp)
    ensures Inv(Grab(vm, i, vp))
  {
    GrabIsPageIn(vm, i, vp);
    PageInInv(vm, i, vp);
  }

  /** Faulting in one page leaves every unused page unused. */
  lemma PageInKeepsFree(vm: Vm, i: nat, vp: nat, j: nat, q: nat)
    requires Inv(vm) && i < |vm.pids| && j < |vm.pids| && Live(vm, i) && CanTake(vm)
    requires !Entry(vm.mem, i, vp).isValid && !(i == j && vp == q)
    requires PageFree(vm, j, q)
    ensures PageFree(PageIn(vm, i, vp), j, q)
  {
    hide Inv, TakeFrame, TakenFrame, CanTake, GrowTable, Install, HasFree;
    InvShape(vm);
    var vm1, k := vm.(mem := GrowTable(vm.mem, i, vp + 1)), KeyOf(vm, i, vp);
    GrowInv(vm, i, vp + 1);
    GrowsTo(vm, i, vp + 1);
    TakeFrameKeeps(vm1, j, q);
    var vm2, p := TakeFrame(vm1), TakenFrame(vm1);
    InstallEntries(vm2, i, vp, p, ZeroPage());
    InstallEntries(vm2, i, vp, p, vm2.mem.frames[p]);
    if k in vm2.disk {
      InstallEntries(vm2.(disk := vm2.disk - {k}), i, vp, p, vm2.disk[k]);
    }
  }

  lemma {:induction false} GrabRangeInv(vm: Vm, i: nat, start: nat, n: nat)
    requires Inv(vm) && i < |vm.pids| && start + n <= |vm.mem.tables[i]| && CanTake(vm)
    requires RunFree(vm, i, start, n)
    ensures Inv(GrabRange(vm, i, start, n))
    decreases n, 0
  {
    hide Inv, Grab, PageIn;
    InvShape(vm);
    if n > 0 {
      var v, vp := GrabRange(vm, i, start, n - 1), start + n - 1;
      assert PageFree(vm, i, vp);
      GrabRangeInv(vm, i, start, n - 1);
      GrabRangeKeepsFree(vm, i, start, n - 1, i, vp);
      GrabInv(v, i, vp);
    }
  }

  lemma {:induction false} GrabRangeKeepsFree(vm: Vm, i: nat, start: nat, n: nat, j: nat, q: nat)
    requires Inv(vm) && i < |vm.pids| && start + n <= |vm.mem.tables[i]| && CanTake(vm)
    requires RunFree(vm, i, start, n)
    requires j < |vm.pids| && !(j == i && start <= q < start + n) && PageFree(vm, j, q)
    ensures PageFree(GrabRange(vm, i, start, n), j, q)
    decreases n, 1
  {
    hide Inv, Grab, PageIn;
    InvShape(vm);
    if n > 0 {
      var v, vp := GrabRange(vm, i, start, n - 1), start + n - 1;
      assert PageFree(vm, i, vp);
      GrabRangeInv(vm, i, start, n - 1);
      GrabRangeKeepsFree(vm, i, start, n - 1, i, vp);
      GrabRangeKeepsFree(vm, i, start, n - 1, j, q);
      GrabIsPageIn(v, i, vp);
      PageInKeepsFree(v, i, vp, j, q);
    }
  }

  /** The state in which an allocation takes its n-th page: that page is still unused. */
  lemma GrabNext(vm: Vm, i: nat, start: nat, n: nat)
    requires Inv(vm) && i < |vm.pids| && start + n <= |vm.mem.tables[i]| && CanTake(vm)
    requires RunFree(vm, i, start, n) && n > 0
    ensures RunFree(vm, i, start, n - 1) && Inv(GrabRange(vm, i, start, n - 1))
    ensures PageFree(GrabRange(vm, i, start, n - 1), i, start + n - 1)
  {
    hide Inv, GrabRange;
    InvShape(vm);
    assert PageFree(vm, i, start + n - 1);
    GrabRangeInv(vm, i, start, n - 1);
    GrabRangeKeepsFree(vm, i, start, n - 1, i, start + n - 1);
  }

  lemma AllocatedHeapOk(vm: Vm, i: nat, bytes: int)
    requires Inv(vm) && i < |vm.pids| && Live(vm, i) && CanTake(vm)
    ensures HeapOk(Alloc(vm, i, bytes).0.heaps[i])
    ensures |Alloc(vm, i, bytes).0.mem.tables[i]| > 0
  {
    hide FramesInv, TablesInv, GrabRange, FirstFit, RunFree, CanTake;
    var vm1 := vm.(mem := GrowTable(vm.mem, i, HEAP_LAST + 1));
    FirstFitInHeap(vm1, i, PagesNeeded(bytes), HEAP_FIRST);
    assert HeapOk(vm.heaps[i]);
  }

  lemma AllocInv(vm: Vm, i: nat, bytes: int)
    requires Inv(vm) && i < |vm.pids| && Live(vm, i) && CanTake(vm)
    ensures Inv(Alloc(vm, i, bytes).0)
  {
    hide Inv, GrabRange, FirstFit, RunFree, CanTake, HeapOk;
    InvShape(vm);
    var n := PagesNeeded(bytes);
    var vm1 := vm.(mem := GrowTable(vm.mem, i, HEAP_LAST + 1));
    GrowInv(vm, i, HEAP_LAST + 1);
    AllocatedHeapOk(vm, i, bytes);
    FirstFitInHeap(vm1, i, n, HEAP_FIRST);
    var s := FirstFit(vm1, i, n, HEAP_FIRST);
    if s.Some? && bytes > 0 && n <= HEAP_PAGES {
      GrabRangeInv(vm1, i, s.value, n);
      var vm2 := GrabRange(vm1, i, s.value, n);
      HeapsInv(vm2, i, Record(vm2.heaps[i], s.value * PAGE_SIZE, n));
    }
  }

  lemma HeapsInv(vm: Vm, i: nat, heap: map<nat, nat>)
    requires Inv(vm) && i < |vm.pids| && (Live(vm, i) || heap == map[]) && HeapOk(heap)
    ensures Inv(vm.(heaps := vm.heaps[i := heap]))
  {
    var r := vm.(heaps := vm.heaps[i := heap]);
    forall j: nat, vq: nat | j < |r.pids| ensures Backed(r, j, vq) { assert Backed(vm, j, vq); }
    forall f | f in r.owner ensures Owning(r, f) { assert Owning(vm, f); }
    forall q | q in r.disk ensures Saved(r, q) { assert Saved(vm, q); }
  }

  lemma ReleaseEffect(vm: Vm, i: nat, vp: nat)
    requires Inv(vm) && i < |vm.pids| && !InSharedWindow(vp) && vp < |vm.mem.tables[i]|
    ensures var r, e := Release(vm, i, vp), Entry(vm.mem, i, vp);
      && (forall j, vq: nat | 0 <= j < |vm.pids| && !(j == i && vq == vp) :: Entry(r.mem, j, vq) == Entry(vm.mem, j, vq))
      && (forall j | 0 <= j < |vm.pids| :: |r.mem.tables[j]| == |vm.mem.tables[j]|)
      && Entry(r.mem, i, vp) == EMPTY_ENTRY
      && r.disk == vm.disk - {KeyOf(vm, i, vp)}
      && r.mem.frames == vm.mem.frames
      && (e.isValid ==> e.physPage in vm.owner && vm.owner[e.physPage] == KeyOf(vm, i, vp)
                        && r.owner == vm.owner - {e.physPage} && r.mem.used == vm.mem.used[e.physPage := false]
                        && r.mem.lru == Without(vm.mem.lru, {e.physPage}))
      && (!e.isValid ==> r.owner == vm.owner && r.mem.used == vm.mem.used && r.mem.lru == vm.mem.lru)
  {
    assert Backed(vm, i, vp);
  }

  lemma ReleaseFrames(vm: Vm, i: nat, vp: nat)
    requires Inv(vm) && i < |vm.pids| && !InSharedWindow(vp)
    ensures FramesInv(Release(vm, i, vp), {})
  {
    if vp < |vm.mem.tables[i]| {
      ReleaseEffect(vm, i, vp);
      WithoutNoDup(vm.mem.lru, {Entry(vm.mem, i, vp).physPage});
      WithoutMembers(vm.mem.lru, {Entry(vm.mem, i, vp).physPage});
    }
  }

  lemma ReleaseTables(vm: Vm, i: nat, vp: nat)
    requires Inv(vm) && i < |vm.pids| && !InSharedWindow(vp)
    ensures TablesInv(Release(vm, i, vp))
    ensures forall j | 0 <= j < |vm.pids| :: |Release(vm, i, vp).mem.tables[j]| == |vm.mem.tables[j]|
  {
    if vp < |vm.mem.tables[i]| {
      ReleaseEffect(vm, i, vp);
      hide Release;
      var r := Release(vm, i, vp);
      forall j: nat, vq: nat | j < |r.pids| ensures Backed(r, j, vq) { assert Backed(vm, j, vq); }
      forall f | f in r.owner ensures Owning(r, f) { assert Owning(vm, f); }
    }
  }

  lemma ReleaseRecords(vm: Vm, i: nat, vp: nat)
    requires Inv(vm) && i < |vm.pids| && !InSharedWindow(vp)
    ensures RecordsInv(Release(vm, i, vp))
  {
    if vp < |vm.mem.tables[i]| {
      ReleaseEffect(vm, i, vp);
      hide Release;
      var r := Release(vm, i, vp);
      forall q | q in r.disk ensures Saved(r, q) { assert Saved(vm, q); }
    }
  }

  lemma ReleaseInv(vm: Vm, i: nat, vp: nat)
    requires Inv(vm) && i < |vm.pids| && !InSharedWindow(vp)
    ensures Inv(Release(vm, i, vp))
    ensures forall j | 0 <= j < |vm.pids| :: |Release(vm, i, vp).mem.tables[j]| == |vm.mem.tables[j]|
  {
    ReleaseFrames(vm, i, vp);
    ReleaseTables(vm, i, vp);
    ReleaseRecords(vm, i, vp);
  }

  lemma {:induction false} ReleaseRangeInv(vm: Vm, i: nat, start: nat, n: nat)
    requires Inv(vm) && i < |vm.pids| && start + n <= HEAP_LAST + 1
    ensures Inv(ReleaseRange(vm, i, start, n))
    ensures forall j | 0 <= j < |vm.pids| :: |ReleaseRange(vm, i, start, n).mem.tables[j]| == |vm.mem.tables[j]|
  {
    hide Inv, Release;
    InvShape(vm);
    if n > 0 {
      ReleaseRangeInv(vm, i, start, n - 1);
      ReleaseInv(ReleaseRange(vm, i, start, n - 1), i, start + n - 1);
    }
  }

  lemma FreeInv(vm: Vm, i: nat, addr: nat)
    requires Inv(vm) && i < |vm.pids|
    ensures Inv(Free(vm, i, addr))
  {
    if addr in vm.heaps[i] {
      assert HeapOk(vm.heaps[i]);
      ReleaseRangeInv(vm, i, addr / PAGE_SIZE, vm.heaps[i][addr]);
      var vm1 := ReleaseRange(vm, i, addr / PAGE_SIZE, vm.heaps[i][addr]);
      HeapsInv(vm1, i, vm1.heaps[i] - {addr});
    }
  }

  lemma MapSharedEffect(vm: Vm, i: nat, region: nat)
    requires Shape(vm) && i < |vm.pids| && region < |vm.shared|
    ensures var r, vp := MapShared(vm, i, region), SHARED_PAGE + region;
      && r == vm.(mem := r.mem) && r.mem == vm.mem.(tables := r.mem.tables)
      && |r.mem.tables[i]| > vp
      && (forall j | 0 <= j < |vm.pids| :: |r.mem.tables[j]| >= |vm.mem.tables[j]|)
      && (forall j | 0 <= j < |vm.pids| && j != i :: r.mem.tables[j] == vm.mem.tables[j])
      && Entry(r.mem, i, vp) == PageEntry(vm.shared[region], true, false)
      && forall j, vq: nat | 0 <= j < |vm.pids| && !(j == i && vq == vp) :: Entry(r.mem, j, vq) == Entry(vm.mem, j, vq)
  {}

  lemma MapSharedInv(vm: Vm, i: nat, region: nat)
    requires Inv(vm) && i < |vm.pids| && Live(vm, i) && region < |vm.shared|
    ensures Inv(MapShared(vm, i, region))
  {
    var r := MapShared(vm, i, region);
    MapSharedEffect(vm, i, region);
    SameFrames(vm, r, {});
    hide FramesInv, MapShared, Entry;
    forall j: nat, vq: nat | j < |r.pids| ensures Backed(r, j, vq) { assert Backed(vm, j, vq); }
    forall f | f in r.owner ensures Owning(r, f) { assert Owning(vm, f); }
    forall q | q in r.disk ensures Saved(r, q) { assert Saved(vm, q); }
  }

  /** Cleanup leaves nothing behind: no frame, no disk slot, no allocation of that process. */
  lemma CleanupLeaksNothing(vm: Vm, i: nat)
    requires Inv(vm) && i < |vm.pids|
    ensures Inv(Cleanup(vm, i)) && !Live(Cleanup(vm, i), i)
    ensures forall f | f in Cleanup(vm, i).owner :: Cleanup(vm, i).owner[f].pid != vm.pids[i]
    ensures forall k | k in Cleanup(vm, i).disk :: k.pid != vm.pids[i]
    ensures forall f | f in vm.owner && vm.owner[f].pid == vm.pids[i] ::
              !Cleanup(vm, i).mem.used[f] && f !in Cleanup(vm, i).mem.lru
  {
    var r, gone := Cleanup(vm, i), FramesOf(vm, vm.pids[i]);
    WithoutNoDup(vm.mem.lru, gone);
    WithoutMembers(vm.mem.lru, gone);
    assert FramesInv(r, {});
    forall j, vq: nat | 0 <= j < |vm.pids| && j != i ensures Entry(r.mem, j, vq) == Entry(vm.mem, j, vq) {}
    forall j: nat, vq: nat | j < |r.pids| ensures Backed(r, j, vq) { assert Backed(vm, j, vq); }
    forall f | f in r.owner ensures Owning(r, f) { assert Owning(vm, f); }
    forall q | q in r.disk ensures Saved(r, q) { assert Saved(vm, q); }
  }

  // ---- Process creation ---------------------------------------------------------------------------

  lemma BootInv(n: nat)
    requires NUM_SHARED <= n <= MAX_FRAMES
    ensures Inv(Boot(n)) && Roomy(Boot(n)) && |Boot(n).mem.frames| == n
  {
    var vm := Boot(n);
    var m0 := Mem(seq(n, _ => ZeroPage()), seq(n, _ => false), [], []);
    assert FirstFree(m0.used, 0) == 0;
    var m1 := AllocFrame(m0);
    assert m1.lru == [0] && FirstFree(m1.used, 0) == FirstFree(m1.used, 1) == 1;
    assert Without([0], {1}) == [0];
    assert vm.mem.lru == [1, 0] && vm.shared == [0, 1];
  }

  lemma AddProcessInv(vm: Vm, codeSize: nat)
    requires Inv(vm)
    ensures Inv(AddProcess(vm, codeSize))
    ensures forall vp: nat :: PageFree(AddProcess(vm, codeSize), |vm.pids|, vp)
  {
    var r, n := AddProcess(vm, codeSize), |vm.pids|;
    SameFrames(vm, r, {});
    forall i: nat, vp: nat | i < n ensures Entry(r.mem, i, vp) == Entry(vm.mem, i, vp) {}
    forall vp: nat ensures Entry(r.mem, n, vp) == EMPTY_ENTRY {}
    hide FramesInv;
    forall i: nat, vp: nat | i < |r.pids| ensures Backed(r, i, vp) {
      if i < n { assert Backed(vm, i, vp); }
    }
    forall f | f in r.owner ensures Owning(r, f) { assert Owning(vm, f); }
    forall q | q in r.disk ensures Saved(r, q) { assert Saved(vm, q); }
    assert vm.nextPid !in vm.pids;
    forall pid | pid in r.pids ensures 0 < pid < r.nextPid { assert pid in vm.pids || pid == vm.nextPid; }
    forall vp: nat ensures PageFree(r, n, vp) {
      assert Key(vm.nextPid, vp) in vm.disk ==> Saved(vm, Key(vm.nextPid, vp));
    }
  }

  lemma DropLastInv(vm: Vm)
    requires Inv(vm) && |vm.pids| > 0
    requires forall k | k in vm.disk :: k.pid != vm.pids[|vm.pids| - 1]
    ensures Inv(DropLast(vm))
  {
    var r := DropLast(vm);
    SameFrames(vm, r, {});
    forall pid | pid in r.pids ensures 0 < pid < r.nextPid { assert pid in vm.pids; }
    forall pid | pid in vm.pids && pid != vm.pids[|vm.pids| - 1] ensures pid in r.pids {}
    forall i: nat, vp: nat | i < |r.pids| ensures Entry(r.mem, i, vp) == Entry(vm.mem, i, vp) {}
    hide FramesInv;
    forall i: nat, vp: nat | i < |r.pids| ensures Backed(r, i, vp) { assert Backed(vm, i, vp); }
    forall f | f in r.owner ensures Owning(r, f) { assert Owning(vm, f); }
    forall q | q in r.disk ensures Saved(r, q) { assert Saved(vm, q); }
  }

  lemma TouchTwice(l: seq<nat>, p: nat)
    ensures Touch(Touch(l, p), p) == Touch(l, p)
  {
    var w := Without(l, {p});
    WithoutTwice(l, {p}, {p});
    WithoutAppend([p], w, {p});
    assert {p} + {p} == {p};
    assert [p][1..] == [] && Without([p], {p}) == [];
    assert [] + w == w;
  }

  /** Mapping one more code page is the allocator's step while a frame is free. */
  lemma LoadStepIsGrab(vm: Vm, i: nat, vp: nat, n: nat)
    requires Shape(vm) && i < |vm.pids| && vp + n <= |vm.mem.tables[i]| && n > 0
    requires LoadPages(vm, i, vp, n).1
    requires CanTake(LoadPages(vm, i, vp, n - 1).0)
    ensures LoadPages(vm, i, vp, n).0 == Grab(LoadPages(vm, i, vp, n - 1).0, i, vp + n - 1)
  {
    var v := LoadPages(vm, i, vp, n - 1).0;
    TouchTwice(v.mem.lru, FirstFree(v.mem.used, 0));
    var p := FirstFree(v.mem.used, 0);
    var f := AllocFrame(v.mem).frames;
    assert f[p := f[p]] == f;
  }

  lemma {:induction false} LoadPagesEffect(vm: Vm, i: nat, vp: nat, n: nat)
    requires Shape(vm) && i < |vm.pids| && vp + n <= |vm.mem.tables[i]|
    ensures var r := LoadPages(vm, i, vp, n).0;
      && r == vm.(mem := r.mem, owner := r.owner) && |r.mem.frames| == |vm.mem.frames|
      && (forall j | 0 <= j < |vm.pids| && j != i :: r.mem.tables[j] == vm.mem.tables[j])
      && (forall q: nat | !(vp <= q < vp + n) :: Entry(r.mem, i, q) == Entry(vm.mem, i, q))
    ensures LoadPages(vm, i, vp, n).1 ==>
              forall q: nat | vp <= q < vp + n :: Entry(LoadPages(vm, i, vp, n).0.mem, i, q).isValid
  {
    if n > 0 {
      LoadPagesEffect(vm, i, vp, n - 1);
      var v, r := LoadPages(vm, i, vp, n - 1).0, LoadPages(vm, i, vp, n).0;
      assert forall q: nat | q != vp + n - 1 :: Entry(r.mem, i, q) == Entry(v.mem, i, q);
    }
  }

  /** The code pages of a new process get frames of their own and evict nothing. */
  lemma {:induction false} LoadPagesInv(vm: Vm, i: nat, vp: nat, n: nat)
    requires Inv(vm) && i < |vm.pids| && vp + n <= |vm.mem.tables[i]|
    requires forall q: nat :: PageFree(vm, i, q)
    ensures Inv(LoadPages(vm, i, vp, n).0)
    ensures LoadPages(vm, i, vp, n).1 && n > 0 ==> |vm.mem.frames| > NUM_SHARED
  {
    hide Inv, Grab;
    InvShape(vm);
    if n > 0 {
      LoadPagesInv(vm, i, vp, n - 1);
      LoadPagesEffect(vm, i, vp, n - 1);
      var (v, ok) := LoadPages(vm, i, vp, n - 1);
      if ok && HasFree(v.mem) {
        var q := vp + n - 1;
        assert PageFree(vm, i, q);
        assert PageFree(v, i, q);
        FreeMeansRoom(v);
        LoadStepIsGrab(vm, i, vp, n);
        GrabInv(v, i, q);
      }
    }
  }

  lemma FreeMeansRoom(vm: Vm)
    requires Inv(vm) && HasFree(vm.mem)
    ensures |vm.mem.frames| > NUM_SHARED && CanTake(vm)
  {
    var f := FirstFree(vm.mem.used, 0);
    NoDupBound(vm.shared, |vm.mem.frames|);
    assert f !in vm.shared;
  }

  lemma {:induction false} WriteCodeEffect(m: Mem, i: nat, code: seq<Byte>, n: nat)
    requires i < |m.tables| && n <= |code| <= 0xE000
    requires forall q: nat | CODE_PAGE <= q < CODE_PAGE + (|code| + PAGE_SIZE - 1) / PAGE_SIZE ::
               Entry(m, i, q).isValid && Entry(m, i, q).physPage < |m.frames|
    ensures WriteCode(m, i, |code|, code, n).Done?
    ensures var r := WriteCode(m, i, |code|, code, n).mem;
      && |r.frames| == |m.frames|
      && (forall j: nat, q: nat :: Entry(r, j, q).isValid == Entry(m, j, q).isValid
                                   && Entry(r, j, q).physPage == Entry(m, j, q).physPage)
      && (forall j | 0 <= j < |m.tables| :: |r.tables[j]| == |m.tables[j]|)
  {
    hide WriteByte;
    if n > 0 {
      WriteCodeEffect(m, i, code, n - 1);
      var r := WriteCode(m, i, |code|, code, n - 1).mem;
      assert Entry(r, i, (CODE_BASE + n - 1) / PAGE_SIZE).isValid;
      WriteByteEntries(r, i, |code|, CODE_BASE + n - 1, code[n - 1]);
    }
  }

  lemma WriteByteEntries(m: Mem, i: nat, codeSize: nat, va: Word, b: Byte)
    requires i < |m.tables|
    ensures var r, e := WriteByte(m, i, codeSize, va, b), Entry(m, i, va / PAGE_SIZE);
      && (IsValidVaddr(codeSize, va) && e.isValid && e.physPage < |m.frames| ==> r.Done?)
      && (forall j: nat, q: nat :: Entry(r.mem, j, q).isValid == Entry(m, j, q).isValid
                                   && Entry(r.mem, j, q).physPage == Entry(m, j, q).physPage)
      && (forall j | 0 <= j < |m.tables| :: |r.mem.tables[j]| == |m.tables[j]|)
  {}

  lemma {:induction false} WriteCodeInv(vm: Vm, i: nat, code: seq<Byte>, n: nat)
    requires Inv(vm) && i < |vm.pids| && n <= |code| <= 0xE000
    ensures Inv(vm.(mem := WriteCode(vm.mem, i, |code|, code, n).mem))
  {
    hide Inv, WriteByte;
    InvShape(vm);
    if n == 0 {
      assert vm.(mem := vm.mem) == vm;
    } else {
      WriteCodeInv(vm, i, code, n - 1);
      var v := vm.(mem := WriteCode(vm.mem, i, |code|, code, n - 1).mem);
      WriteInv(v, i, |code|, CODE_BASE + n - 1, code[n - 1]);
    }
  }

  lemma NewPidUnsaved(vm: Vm, codeSize: nat)
    requires Inv(vm)
    ensures forall k | k in AddProcess(vm, codeSize).disk :: k.pid != vm.nextPid
  {
    forall k | k in vm.disk ensures k.pid != vm.nextPid { assert Saved(vm, k); }
  }

  lemma ValidInRange(vm: Vm, i: nat)
    requires Inv(vm) && i < |vm.pids|
    ensures forall q: nat :: Entry(vm.mem, i, q).isValid ==> Entry(vm.mem, i, q).physPage < |vm.mem.frames|
  {
    forall q: nat ensures Entry(vm.mem, i, q).isValid ==> Entry(vm.mem, i, q).physPage < |vm.mem.frames| {
      assert Backed(vm, i, q);
    }
  }

  /** Creation keeps the invariant, whether it succeeds or runs out of frames half way; when it
      succeeds the new process is live, and there is a frame to evict from then on. */
  lemma CreateInv(vm: Vm, code: seq<Byte>)
    requires Inv(vm) && Roomy(vm) && |code| <= 0xE000
    ensures Inv(Create(vm, code).0) && Roomy(Create(vm, code).0)
    ensures Create(vm, code).1 ==>
              Create(vm, code).0.pids == vm.pids + [vm.nextPid] && Live(Create(vm, code).0, |vm.pids|)
    ensures !Create(vm, code).1 ==> Create(vm, code).0.pids == vm.pids
  {
    hide Inv, WriteCode, LoadPages;
    InvShape(vm);
    var i, vm1 := |vm.pids|, AddProcess(vm, |code|);
    AddProcessInv(vm, |code|);
    NewPidUnsaved(vm, |code|);
    if |code| == 0 {
      DropLastInv(vm1);
    } else {
      var n := (CODE_BASE + |code| - 1) / PAGE_SIZE - CODE_PAGE + 1;
      LoadPagesInv(vm1, i, CODE_PAGE, n);
      LoadPagesEffect(vm1, i, CODE_PAGE, n);
      var (vm2, ok) := LoadPages(vm1, i, CODE_PAGE, n);
      if ok {
        ValidInRange(vm2, i);
        WriteCodeEffect(vm2.mem, i, code, |code|);
        WriteCodeInv(vm2, i, code, |code|);
      } else {
        DropLastInv(vm2);
      }
    }
  }

  /** Creation changes nobody else's liveness. */
  lemma CreateLive(vm: Vm, code: seq<Byte>, j: nat)
    requires Inv(vm) && Shape(vm) && |code| <= 0xE000 && j < |vm.pids|
    ensures j < |Create(vm, code).0.pids| && Create(vm, code).0.pids[j] == vm.pids[j]
    ensures Live(Create(vm, code).0, j) <==> Live(vm, j)
  {
    hide Inv, LoadPages, WriteCode;
    var i, vm1 := |vm.pids|, AddProcess(vm, |code|);
    AddProcessInv(vm, |code|);
    if |code| > 0 {
      var n := (CODE_BASE + |code| - 1) / PAGE_SIZE - CODE_PAGE + 1;
      LoadPagesInv(vm1, i, CODE_PAGE, n);
      LoadPagesEffect(vm1, i, CODE_PAGE, n);
      var (vm2, ok) := LoadPages(vm1, i, CODE_PAGE, n);
      if ok {
        ValidInRange(vm2, i);
        WriteCodeEffect(vm2.mem, i, code, |code|);
      }
    }
  }
}
