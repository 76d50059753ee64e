/** The first-fit heap allocator on top of demand paging. */
module HeapAllocator {
  import opened Basics
  import opened Lru
  import opened Memory
  import opened Paging
  import opened FrameInvariant
  import opened PagingRuns
  import opened FlatMemory
  import opened StackProperty

  // ---- First fit is exact --------------------------------------------------------------------------

  /** Some run of n free heap pages starts at or above s. */
  ghost predicate HasRun(vm: Vm, i: nat, n: nat, s: nat)
    requires i < |vm.pids|
  {
    exists t: nat :: s <= t && t + n <= HEAP_LAST + 1 && RunFree(vm, i, t, n)
  }

  /** The search finds the lowest run, and finds none only where there is none. */
  lemma {:induction false} FirstFitIsLowest(vm: Vm, i: nat, n: nat, s: nat)
    requires i < |vm.pids| && n > 0
    ensures FirstFit(vm, i, n, s).Some? <==> HasRun(vm, i, n, s)
    ensures FirstFit(vm, i, n, s).Some? ==>
              var t := FirstFit(vm, i, n, s).value;
              && s <= t && t + n <= HEAP_LAST + 1 && RunFree(vm, i, t, n)
              && forall u: nat | s <= u < t :: !RunFree(vm, i, u, n)
    decreases HEAP_LAST + 1 - s
  {
    if s + n <= HEAP_LAST + 1 && !RunFree(vm, i, s, n) {
      FirstFitIsLowest(vm, i, n, s + 1);
    }
  }

  /** Pages of a request, without the 32-bit detours of the code. */
  function CeilPages(bytes: nat): nat {
    (bytes + PAGE_SIZE - 1) / PAGE_SIZE
  }

  /** 32-bit rounding is exact up to the wrap, and yields no pages at all beyond it. */
  lemma PagesNeededExact(bytes: nat)
    requires 0 < bytes < WORD_RANGE
    ensures PagesNeeded(bytes) == if bytes <= WORD_RANGE - PAGE_SIZE then CeilPages(bytes) else 0
    ensures CeilPages(bytes) > 0
    ensures bytes > WORD_RANGE - PAGE_SIZE ==> CeilPages(bytes) > HEAP_PAGES
  {}

  /** A request counts by its low 32 bits. */
  lemma RequestWord(bytes: int)
    ensures PagesNeeded(bytes) == PagesNeeded(bytes % WORD_RANGE)
    ensures bytes % WORD_RANGE == 0 ==> PagesNeeded(bytes) == 0
    ensures 0 < bytes < WORD_RANGE ==> bytes % WORD_RANGE == bytes
  {}

  /** handleAlloc_ succeeds exactly when the request is positive, its low 32 bits are not zero, and the heap window has a
      run of as many unused pages as hold that many bytes, also where the rounding wraps to zero pages; it then returns
      the lowest such run. */
  lemma AllocIsExact(vm: Vm, i: nat, bytes: int)
    requires Inv(vm) && i < |vm.pids| && Live(vm, i) && CanTake(vm)
    ensures var n := CeilPages(bytes % WORD_RANGE);
      Alloc(vm, i, bytes).1 != 0 <==> bytes > 0 && bytes % WORD_RANGE > 0 && HasRun(vm, i, n, HEAP_FIRST)
    ensures var (r, addr) := Alloc(vm, i, bytes); var n := CeilPages(bytes % WORD_RANGE);
      addr != 0 ==>
        && addr % PAGE_SIZE == 0 && HEAP_START <= addr && addr + n * PAGE_SIZE <= HEAP_END
        && RunFree(vm, i, addr / PAGE_SIZE, n)
        && (forall u: nat | HEAP_FIRST <= u < addr / PAGE_SIZE :: !RunFree(vm, i, u, n))
        && r.heaps == vm.heaps[i := Record(vm.heaps[i], addr, n)]
    ensures Alloc(vm, i, bytes).1 == 0 ==> Alloc(vm, i, bytes).0.heaps == vm.heaps
  {
    hide Inv, GrabRange, CanTake, FirstFit, PageFree, PagesNeeded;
    InvShape(vm);
    RequestWord(bytes);
    var w, n := bytes % WORD_RANGE, CeilPages(bytes % WORD_RANGE);
    var vm1 := vm.(mem := GrowTable(vm.mem, i, HEAP_LAST + 1));
    GrowInv(vm, i, HEAP_LAST + 1);
    FirstFitInHeap(vm1, i, PagesNeeded(bytes), HEAP_FIRST);
    if w > 0 {
      PagesNeededExact(w);
      forall q: nat ensures PageFree(vm1, i, q) == PageFree(vm, i, q) { GrowFree(vm, i, HEAP_LAST + 1, q); }
      assert forall t: nat :: RunFree(vm1, i, t, n) == RunFree(vm, i, t, n);
      assert HasRun(vm1, i, n, HEAP_FIRST) == HasRun(vm, i, n, HEAP_FIRST);
      FirstFitIsLowest(vm1, i, n, HEAP_FIRST);
    }
  }

  lemma GrowFree(vm: Vm, i: nat, n: nat, q: nat)
    requires Shape(vm) && i < |vm.pids|
    ensures PageFree(vm.(mem := GrowTable(vm.mem, i, n)), i, q) == PageFree(vm, i, q)
  {}

  /** Registers hold 64 bits: a request is cut to its low 32 bits first, so what a success covers is
      the whole request exactly when it fits in 32 bits. */
  lemma AllocCoversIffWord(vm: Vm, i: nat, bytes: nat)
    requires Inv(vm) && i < |vm.pids| && Live(vm, i) && CanTake(vm)
    requires bytes > 0 && Alloc(vm, i, bytes).1 != 0
    ensures var (r, addr) := Alloc(vm, i, bytes);
      addr in r.heaps[i] && (r.heaps[i][addr] * PAGE_SIZE >= bytes <==> bytes < WORD_RANGE)
  {
    hide Inv, GrabRange, CanTake, FirstFit, RunFree;
    InvShape(vm);
    var vm1 := vm.(mem := GrowTable(vm.mem, i, HEAP_LAST + 1));
    GrowInv(vm, i, HEAP_LAST + 1);
    FirstFitInHeap(vm1, i, PagesNeeded(bytes), HEAP_FIRST);
  }

  // ---- Residency -------------------------------------------------------------------------------------

  /** The pages start + n - 1 down to start, as stack entries. */
  function RangeKeys(pid: nat, start: nat, n: nat): (s: seq<Key>)
    ensures |s| == n
    ensures forall k | 0 <= k < n :: s[k] == Key(pid, start + n - 1 - k)
  {
    if n == 0 then [] else [Key(pid, start + n - 1)] + RangeKeys(pid, start, n - 1)
  }

  lemma {:induction false} GrabRangeStack(vm: Vm, i: nat, start: nat, n: nat)
    requires Inv(vm) && i < |vm.pids| && start + n <= |vm.mem.tables[i]| && CanTake(vm) && RunFree(vm, i, start, n)
    requires Evictable(vm) > 0
    ensures Stack(GrabRange(vm, i, start, n)) == Take(RangeKeys(vm.pids[i], start, n) + Stack(vm), Evictable(vm))
  {
    hide Inv, CanTake, Grab, PageIn, Stack, RunFree;
    InvShape(vm);
    if n == 0 {
      StackSize(vm);
      assert RangeKeys(vm.pids[i], start, 0) + Stack(vm) == Stack(vm);
    } else {
      GrabNext(vm, i, start, n);
      GrabRangeStack(vm, i, start, n - 1);
      var v, vp := GrabRange(vm, i, start, n - 1), start + n - 1;
      FreeIsUnmapped(v, i, vp);
      GrabIsPageIn(v, i, vp);
      MissStack(v, i, vp);
      var k, s, m := KeyOf(vm, i, vp), RangeKeys(vm.pids[i], start, n - 1) + Stack(vm), Evictable(vm);
      TakePush(s, k, m);
      assert [k] + s == RangeKeys(vm.pids[i], start, n) + Stack(vm);
    }
  }

  lemma TakePush(s: seq<Key>, k: Key, m: nat)
    requires m > 0
    ensures Take([k] + Take(s, m), m) == Take([k] + s, m)
  {
    if m < |s| {
      assert ([k] + s[..m])[..m] == ([k] + s)[..m];
    }
  }

  /** An allocated page that is resident is zero and clean. */
  lemma {:induction false} GrabRangeClean(vm: Vm, i: nat, start: nat, n: nat, q: nat)
    requires Inv(vm) && i < |vm.pids| && start + n <= |vm.mem.tables[i]| && CanTake(vm) && RunFree(vm, i, start, n)
    requires start <= q < start + n && !InSharedWindow(q)
    ensures var e := Entry(GrabRange(vm, i, start, n).mem, i, q); e.isValid ==> !e.isDirty
    ensures View(GrabRange(vm, i, start, n), i, q) == ZeroPage()
  {
    hide Inv, CanTake, Grab, PageIn, RunFree;
    InvShape(vm);
    GrabNext(vm, i, start, n);
    var v, vp := GrabRange(vm, i, start, n - 1), start + n - 1;
    GrabView(v, i, vp, i, q);
    GrabIsPageIn(v, i, vp);
    if q == vp {
      PageInMaps(v, i, vp);
    } else {
      GrabRangeClean(vm, i, start, n - 1, q);
      PageInKeepsEntry(v, i, vp, i, q);
    }
  }

  /** A page that is still resident after a fault of another page kept its entry. */
  lemma PageInKeepsEntry(vm: Vm, i: nat, vp: nat, j: nat, q: nat)
    requires Inv(vm) && i < |vm.pids| && j < |vm.pids| && Live(vm, i) && CanTake(vm)
    requires !Entry(vm.mem, i, vp).isValid && !InSharedWindow(q) && !(i == j && vp == q)
    ensures var evicted := !HasFree(vm.mem) && Holds(vm, TakenFrame(vm), j, q);
      && Entry(PageIn(vm, i, vp).mem, j, q).isValid == (Entry(vm.mem, j, q).isValid && !evicted)
      && (Entry(PageIn(vm, i, vp).mem, j, q).isValid ==> Entry(PageIn(vm, i, vp).mem, j, q) == Entry(vm.mem, j, q))
  {
    hide Inv, CanTake, PageIn, TakeFrame, Install, GrowTable;
    InvShape(vm);
    var vm1 := vm.(mem := GrowTable(vm.mem, i, vp + 1));
    GrowInv(vm, i, vp + 1);
    GrowView(vm, i, vp + 1, j, q);
    PageInForm(vm, i, vp);
    TakeFrameView(vm1, j, q);
    var vm2 := TakeFrame(vm1);
    InstallEntries(vm2.(disk := vm2.disk - {KeyOf(vm, i, vp)}), i, vp, TakenFrame(vm1), View(vm, i, vp));
  }

  /** After a successful Alloc every page of it is zero; and all of them are resident, clean and in
      frames of their own exactly when the allocation is no larger than the evictable memory. */
  lemma AllocatedPagesResident(vm: Vm, i: nat, bytes: int)
    requires Inv(vm) && i < |vm.pids| && Live(vm, i) && CanTake(vm) && Evictable(vm) > 0
    requires Alloc(vm, i, bytes).1 != 0
    ensures var (r, addr) := Alloc(vm, i, bytes);
      var s, n := addr / PAGE_SIZE, PagesNeeded(bytes);
      && Inv(r)
      && (forall q: nat | s <= q < s + n :: View(r, i, q) == ZeroPage())
      && (forall q: nat | s <= q < s + n :: Entry(r.mem, i, q).isValid ==> !Entry(r.mem, i, q).isDirty)
      && ((forall q: nat | s <= q < s + n :: Entry(r.mem, i, q).isValid) <==> n <= Evictable(vm))
  {
    hide Inv, CanTake, GrabRange, RunFree, FirstFit;
    InvShape(vm);
    AllocForm(vm, i, bytes);
    AllocInv(vm, i, bytes);
    var (r, addr) := Alloc(vm, i, bytes);
    var (vm1, s, n) := AllocPlan(vm, i, bytes);
    FirstFitInHeap(vm.(mem := GrowTable(vm.mem, i, HEAP_LAST + 1)), i, PagesNeeded(bytes), HEAP_FIRST);
    GrowStack(vm, i, HEAP_LAST + 1);
    GrabRangeStack(vm1, i, s, n);
    RangeOnStack(r, vm1, i, s, n);
    forall q: nat | s <= q < s + n
      ensures View(r, i, q) == ZeroPage() && (Entry(r.mem, i, q).isValid ==> !Entry(r.mem, i, q).isDirty)
    {
      GrabRangeClean(vm1, i, s, n, q);
      HeapsView(GrabRange(vm1, i, s, n), r.heaps, i, q);
    }
  }

  lemma HeapsView(vm: Vm, heaps: seq<map<nat, nat>>, i: nat, q: nat)
    requires Shape(vm) && |heaps| == |vm.heaps|
    ensures View(vm.(heaps := heaps), i, q) == View(vm, i, q)
  {}

  lemma GrowStack(vm: Vm, i: nat, n: nat)
    requires Shape(vm) && i < |vm.pids|
    ensures var r := vm.(mem := GrowTable(vm.mem, i, n)); Stack(r) == Stack(vm) && Evictable(r) == Evictable(vm)
  {}

  /** The first page of the range is the one to fall off the stack. */
  lemma RangeOnStack(r: Vm, vm: Vm, i: nat, s: nat, n: nat)
    requires Inv(r) && Shape(vm) && i < |vm.pids| && r.pids == vm.pids && Evictable(vm) > 0
    requires 0 < n && HEAP_FIRST <= s && s + n <= HEAP_LAST + 1 && Live(r, i)
    requires Stack(r) == Take(RangeKeys(vm.pids[i], s, n) + Stack(vm), Evictable(vm))
    ensures (forall q: nat | s <= q < s + n :: Entry(r.mem, i, q).isValid) <==> n <= Evictable(vm)
  {
    var ks, m := RangeKeys(vm.pids[i], s, n), Evictable(vm);
    if n <= m {
      forall q: nat | s <= q < s + n ensures Entry(r.mem, i, q).isValid {
        var at := s + n - 1 - q;
        assert Stack(r)[at] == ks[at] == Key(vm.pids[i], q);
        OnStackIffResident(r, Ref(i, q));
      }
    } else {
      assert Stack(r) == ks[..m];
      assert Key(vm.pids[i], s) !in Stack(r);
      OnStackIffResident(r, Ref(i, s));
    }
  }
}
