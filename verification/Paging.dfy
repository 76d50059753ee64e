/** The paging half of OS.cpp as a value: page faults, LRU eviction to a simulated disk, the heap
    allocator, shared mappings, process loading and cleanup. */
module Paging {
  import opened Basics
  import opened Lru
  import opened Memory

  /** A virtual page of a process: the key of disk_ and the value of physPageOwner_. */
  datatype Key = Key(pid: nat, vpage: nat)

  /** Process i has pid pids[i], code size sizes[i], page table mem.tables[i] and allocations heaps[i]. */
  datatype Vm = Vm(
    mem: Mem,
    shared: seq<nat>,
    pids: seq<nat>,
    sizes: seq<nat>,
    heaps: seq<map<nat, nat>>,
    disk: map<Key, Page>,
    owner: map<nat, Key>,
    nextPid: nat)

  const CODE_PAGE: nat := CODE_BASE / PAGE_SIZE
  const HEAP_FIRST: nat := HEAP_START / PAGE_SIZE
  const HEAP_LAST: nat := (HEAP_END - 1) / PAGE_SIZE
  const HEAP_PAGES: nat := HEAP_LAST - HEAP_FIRST + 1
  const TABLE_PAGES: nat := (STACK_TOP - 1) / PAGE_SIZE + 1
  const SHARED_PAGE: nat := SHARED_BASE / PAGE_SIZE

  /** Process i exists and was not cleaned up: only cleanup empties a page table. */
  predicate Live(vm: Vm, i: nat) {
    i < |vm.mem.tables| && |vm.mem.tables[i]| > 0
  }

  predicate Shape(vm: Vm) {
    && Wf(vm.mem)
    && |vm.mem.tables| == |vm.pids| == |vm.sizes| == |vm.heaps|
    && |vm.shared| == NUM_SHARED
  }

  function KeyOf(vm: Vm, i: nat, vp: nat): Key
    requires i < |vm.pids|
  {
    Key(vm.pids[i], vp)
  }

  // ---- Eviction (OS.cpp:282-312) -----------------------------------------------------------

  predicate SharedInUse(vm: Vm) {
    forall f | f in vm.shared :: f < |vm.mem.used| && vm.mem.used[f]
  }

  /** A frame can be had: a free one, or an unpinned one in the LRU list. */
  predicate CanTake(vm: Vm) {
    && SharedInUse(vm)
    && (HasFree(vm.mem) || Victim(vm.mem.lru, vm.shared).Some?)
  }

  /** The first process at or above j with this pid and a table reaching the page. */
  function FindOwner(vm: Vm, k: Key, j: nat): (r: nat)
    requires Shape(vm) && j <= |vm.pids|
    ensures j <= r <= |vm.pids|
    ensures r < |vm.pids| ==> vm.pids[r] == k.pid && k.vpage < |vm.mem.tables[r]|
    ensures forall q | j <= q < r :: !(vm.pids[q] == k.pid && k.vpage < |vm.mem.tables[q]|)
    decreases |vm.pids| - j
  {
    if j == |vm.pids| || (vm.pids[j] == k.pid && k.vpage < |vm.mem.tables[j]|) then j
    else FindOwner(vm, k, j + 1)
  }

  /** Frame p is taken from page k: saved to disk if dirty, and the entry invalidated. */
  function Unmap(vm: Vm, p: nat, k: Key): Vm
    requires Shape(vm) && p < |vm.mem.frames|
  {
    var j := FindOwner(vm, k, 0);
    if j == |vm.pids| then vm
    else
      var e := vm.mem.tables[j][k.vpage];
      vm.(disk := if e.isDirty then vm.disk[k := vm.mem.frames[p]] else vm.disk,
          mem := SetEntry(vm.mem, j, k.vpage, e.(isValid := false, physPage := UNMAPPED)))
  }

  function Evict(vm: Vm): (r: Vm)
    requires Shape(vm) && Victim(vm.mem.lru, vm.shared).Some?
    ensures Shape(r)
  {
    var p := Victim(vm.mem.lru, vm.shared).value;
    var vm1 := if p in vm.owner then Unmap(vm, p, vm.owner[p]).(owner := vm.owner - {p}) else vm;
    vm1.(mem := vm1.mem.(lru := Without(vm1.mem.lru, {p})))
  }

  /** The frame a request gets, and the state it is handed over in: fresh and zero, or evicted. */
  function TakenFrame(vm: Vm): (p: nat)
    requires Shape(vm) && CanTake(vm)
    ensures p < |vm.mem.frames| && p !in vm.shared
  {
    if HasFree(vm.mem) then FirstFree(vm.mem.used, 0) else Victim(vm.mem.lru, vm.shared).value
  }

  function TakeFrame(vm: Vm): (r: Vm)
    requires Shape(vm) && CanTake(vm)
    ensures Shape(r) && SharedInUse(r) && r.shared == vm.shared && r.pids == vm.pids && r.heaps == vm.heaps
    ensures |r.mem.frames| == |vm.mem.frames|
    ensures forall j | 0 <= j < |vm.pids| :: |r.mem.tables[j]| == |vm.mem.tables[j]|
  {
    if HasFree(vm.mem) then vm.(mem := AllocFrame(vm.mem)) else Evict(vm)
  }

  /** Points entry vp of process i at frame p, clean, with p owned by it and most recently used. */
  function Install(vm: Vm, i: nat, vp: nat, p: nat, content: Page): (r: Vm)
    requires Shape(vm) && i < |vm.pids| && vp < |vm.mem.tables[i]| && p < |vm.mem.frames|
    ensures Shape(r)
    ensures SharedInUse(vm) && p !in vm.shared ==> CanTake(r)
  {
    var m := SetEntry(vm.mem, i, vp, PageEntry(p, true, false));
    vm.(mem := TouchFrame(m.(frames := m.frames[p := content]), p),
        owner := vm.owner[p := KeyOf(vm, i, vp)])
  }

  // ---- Page fault (OS.cpp:236-274) ---------------------------------------------------------

  function PageIn(vm: Vm, i: nat, vp: nat): (r: Vm)
    requires Shape(vm) && i < |vm.pids| && CanTake(vm)
    ensures Shape(r) && CanTake(r) && r.pids == vm.pids && |r.mem.frames| == |vm.mem.frames|
  {
    var vm1 := vm.(mem := GrowTable(vm.mem, i, vp + 1));
    var p := TakenFrame(vm1);
    var vm2 := TakeFrame(vm1);
    var k := KeyOf(vm, i, vp);
    if k in vm2.disk then Install(vm2.(disk := vm2.disk - {k}), i, vp, p, vm2.disk[k])
    else if HasFree(vm1.mem) then Install(vm2, i, vp, p, vm2.mem.frames[p])
    else Install(vm2, i, vp, p, ZeroPage())
  }

  lemma PageInSizes(vm: Vm, i: nat, vp: nat)
    requires Shape(vm) && i < |vm.pids| && CanTake(vm)
    ensures PageIn(vm, i, vp).sizes == vm.sizes
  {}

  // ---- Heap allocator (OS.cpp:408-516) ------------------------------------------------------

  /** Alloc's test for an unused page: not resident and not on disk. */
  predicate PageFree(vm: Vm, i: nat, vp: nat)
    requires i < |vm.pids|
  {
    var e := Entry(vm.mem, i, vp);
    !e.isValid && e.physPage == UNMAPPED && KeyOf(vm, i, vp) !in vm.disk
  }

  lemma FreeIsUnmapped(vm: Vm, i: nat, vp: nat)
    requires i < |vm.pids| && PageFree(vm, i, vp)
    ensures !Entry(vm.mem, i, vp).isValid
  {}

  predicate RunFree(vm: Vm, i: nat, start: nat, n: nat)
    requires i < |vm.pids|
  {
    forall vp | start <= vp < start + n :: PageFree(vm, i, vp)
  }

  /** Pages for a byte count: truncated to 32 bits, rounded up in 32 bits. */
  function PagesNeeded(bytes: int): nat {
    ToWord(ToWord(bytes) + PAGE_SIZE - 1) / PAGE_SIZE
  }

  /** The lowest start at or above s of n free heap pages; a run of no pages is never found. */
  function FirstFit(vm: Vm, i: nat, n: nat, s: nat): (r: Option<nat>)
    requires i < |vm.pids|
    decreases HEAP_LAST + 1 - s
  {
    if n == 0 || s + n > HEAP_LAST + 1 then None
    else if RunFree(vm, i, s, n) then Some(s)
    else FirstFit(vm, i, n, s + 1)
  }

  function Grab(vm: Vm, i: nat, vp: nat): (r: Vm)
    requires Shape(vm) && i < |vm.pids| && vp < |vm.mem.tables[i]| && CanTake(vm)
    ensures Shape(r) && CanTake(r) && r.pids == vm.pids
    ensures |r.mem.tables[i]| == |vm.mem.tables[i]| && r.heaps == vm.heaps && |r.mem.frames| == |vm.mem.frames|
  {
    var p := TakenFrame(vm);
    var vm1 := TakeFrame(vm);
    Install(vm1, i, vp, p, if HasFree(vm.mem) then vm1.mem.frames[p] else ZeroPage())
  }

  function GrabRange(vm: Vm, i: nat, start: nat, n: nat): (r: Vm)
    requires Shape(vm) && i < |vm.pids| && start + n <= |vm.mem.tables[i]| && CanTake(vm)
    ensures Shape(r) && CanTake(r) && r.pids == vm.pids
    ensures |r.mem.tables[i]| == |vm.mem.tables[i]| && r.heaps == vm.heaps && |r.mem.frames| == |vm.mem.frames|
  {
    if n == 0 then vm else Grab(GrabRange(vm, i, start, n - 1), i, start + n - 1)
  }

  function Record(h: map<nat, nat>, addr: nat, n: nat): map<nat, nat> {
    h[addr := n]
  }

  /** handleAlloc_: the new state and the address, 0 on failure. */
  function Alloc(vm: Vm, i: nat, bytes: int): (r: (Vm, nat))
    requires Shape(vm) && i < |vm.pids| && CanTake(vm)
    ensures Shape(r.0)
  {
    var n := PagesNeeded(bytes);
    if bytes <= 0 || n > HEAP_PAGES then (vm, 0)
    else
      var vm1 := vm.(mem := GrowTable(vm.mem, i, HEAP_LAST + 1));
      match FirstFit(vm1, i, n, HEAP_FIRST)
      case None => (vm1, 0)
      case Some(s) =>
        FirstFitInHeap(vm1, i, n, HEAP_FIRST);
        var vm2 := GrabRange(vm1, i, s, n);
        (vm2.(heaps := vm2.heaps[i := Record(vm2.heaps[i], s * PAGE_SIZE, n)]), s * PAGE_SIZE)
  }

  lemma {:induction false} FirstFitInHeap(vm: Vm, i: nat, n: nat, s: nat)
    requires i < |vm.pids|
    ensures var r := FirstFit(vm, i, n, s);
            r.Some? ==> n > 0 && s <= r.value && r.value + n <= HEAP_LAST + 1 && RunFree(vm, i, r.value, n)
    decreases HEAP_LAST + 1 - s
  {
    if n != 0 && s + n <= HEAP_LAST + 1 && !RunFree(vm, i, s, n) {
      FirstFitInHeap(vm, i, n, s + 1);
    }
  }

  /** One page of handleFreeMemory_. */
  function Release(vm: Vm, i: nat, vp: nat): (r: Vm)
    requires Shape(vm) && i < |vm.pids|
    ensures Shape(r) && r.pids == vm.pids && r.heaps == vm.heaps && |r.mem.frames| == |vm.mem.frames|
  {
    if vp >= |vm.mem.tables[i]| then vm
    else
      var e := vm.mem.tables[i][vp];
      var mapped := e.isValid && e.physPage != UNMAPPED && e.physPage < |vm.mem.used|;
      var m := if mapped then FreeFrame(vm.mem, e.physPage) else vm.mem;
      vm.(mem := SetEntry(m, i, vp, EMPTY_ENTRY),
          owner := if mapped then vm.owner - {e.physPage} else vm.owner,
          disk := vm.disk - {KeyOf(vm, i, vp)})
  }

  function ReleaseRange(vm: Vm, i: nat, start: nat, n: nat): (r: Vm)
    requires Shape(vm) && i < |vm.pids|
    ensures Shape(r) && r.pids == vm.pids && r.heaps == vm.heaps && |r.mem.frames| == |vm.mem.frames|
  {
    if n == 0 then vm else Release(ReleaseRange(vm, i, start, n - 1), i, start + n - 1)
  }

  /** handleFreeMemory_ of an address that was never returned by Alloc changes nothing. */
  function Free(vm: Vm, i: nat, addr: nat): (r: Vm)
    requires Shape(vm) && i < |vm.pids|
    ensures Shape(r)
  {
    if addr !in vm.heaps[i] then vm
    else
      var vm1 := ReleaseRange(vm, i, addr / PAGE_SIZE, vm.heaps[i][addr]);
      vm1.(heaps := vm1.heaps[i := vm1.heaps[i] - {addr}])
  }

  // ---- Shared mapping (OS.cpp:121-134, MMU.cpp:57-65) ----------------------------------------

  function MapShared(vm: Vm, i: nat, region: nat): (r: Vm)
    requires Shape(vm) && i < |vm.pids| && region < |vm.shared|
    ensures Shape(r)
  {
    var vp := SHARED_PAGE + region;
    vm.(mem := SetEntry(GrowTable(vm.mem, i, vp + 1), i, vp, PageEntry(vm.shared[region], true, false)))
  }

  // ---- Cleanup (OS.cpp:317-335) ---------------------------------------------------------------

  function FramesOf(vm: Vm, pid: nat): set<nat> {
    set f | f in vm.owner && vm.owner[f].pid == pid
  }

  function Cleanup(vm: Vm, i: nat): (r: Vm)
    requires Shape(vm) && i < |vm.pids|
    ensures Shape(r)
  {
    var gone := FramesOf(vm, vm.pids[i]);
    vm.(mem := vm.mem.(used := seq(|vm.mem.used|, f requires 0 <= f < |vm.mem.used| => vm.mem.used[f] && f !in gone),
                       lru := Without(vm.mem.lru, gone),
                       tables := vm.mem.tables[i := []]),
        owner := vm.owner - gone,
        disk := vm.disk - (set k | k in vm.disk && k.pid == vm.pids[i]),
        heaps := vm.heaps[i := map[]])
  }

  // ---- Process creation (OS.cpp:11-66) --------------------------------------------------------

  /** The record of the new process, all pages unmapped; appended before loading and dropped again
      when loading fails. */
  function AddProcess(vm: Vm, codeSize: nat): (r: Vm)
    requires Shape(vm)
    ensures Shape(r)
  {
    vm.(mem := vm.mem.(tables := vm.mem.tables + [Grow([], TABLE_PAGES)]),
        pids := vm.pids + [vm.nextPid],
        sizes := vm.sizes + [codeSize],
        heaps := vm.heaps + [map[]],
        nextPid := vm.nextPid + 1)
  }

  function DropLast(vm: Vm): (r: Vm)
    requires Shape(vm) && |vm.pids| > 0
    ensures Shape(r)
  {
    var n := |vm.pids| - 1;
    vm.(mem := vm.mem.(tables := vm.mem.tables[..n]),
        pids := vm.pids[..n], sizes := vm.sizes[..n], heaps := vm.heaps[..n])
  }

  /** Maps n code pages from page vp of process i; false when physical memory runs out. */
  function LoadPages(vm: Vm, i: nat, vp: nat, n: nat): (r: (Vm, bool))
    requires Shape(vm) && i < |vm.pids| && vp + n <= |vm.mem.tables[i]|
    ensures Shape(r.0) && r.0.pids == vm.pids
    ensures |r.0.mem.tables[i]| == |vm.mem.tables[i]|
  {
    if n == 0 then (vm, true)
    else
      var (vm1, ok) := LoadPages(vm, i, vp, n - 1);
      if !ok || !HasFree(vm1.mem) then (vm1, false)
      else
        var p := FirstFree(vm1.mem.used, 0);
        var m := AllocFrame(vm1.mem);
        (vm1.(mem := SetEntry(m, i, vp + n - 1, PageEntry(p, true, false)),
              owner := vm1.owner[p := KeyOf(vm, i, vp + n - 1)]), true)
  }

  /** loadIntoMemory: the first n bytes of the program written through the MMU. */
  function WriteCode(m: Mem, i: nat, codeSize: nat, code: seq<Byte>, n: nat): (r: Access<()>)
    requires i < |m.tables| && n <= |code| <= 0xE000
    ensures |r.mem.tables| == |m.tables|
    ensures Wf(m) ==> Wf(r.mem)
  {
    if n == 0 then Done(m, ())
    else
      var r := WriteCode(m, i, codeSize, code, n - 1);
      if r.Done? then WriteByte(r.mem, i, codeSize, CODE_BASE + n - 1, code[n - 1]) else r
  }

  /** createProcessFromAsm on an assembled program; false when it throws. */
  function Create(vm: Vm, code: seq<Byte>): (r: (Vm, bool))
    requires Shape(vm) && |code| <= 0xE000
    ensures Shape(r.0)
  {
    var i := |vm.pids|;
    var vm1 := AddProcess(vm, |code|);
    if |code| == 0 then (DropLast(vm1), false)
    else
      var n := (CODE_BASE + |code| - 1) / PAGE_SIZE - CODE_PAGE + 1;
      var (vm2, ok) := LoadPages(vm1, i, CODE_PAGE, n);
      if !ok then (DropLast(vm2), false)
      else
        var w := WriteCode(vm2.mem, i, |code|, code, |code|);
        if w.Done? then (vm2.(mem := w.mem), true) else (DropLast(vm2.(mem := w.mem)), false)
  }

  /** The OS constructor: every frame free, then the shared frames allocated. */
  function Boot(numFrames: nat): (vm: Vm)
    requires NUM_SHARED <= numFrames <= MAX_FRAMES
    ensures Shape(vm)
  {
    var m0 := Mem(seq(numFrames, _ => ZeroPage()), seq(numFrames, _ => false), [], []);
    var m1 := AllocFrame(m0);
    var m2 := AllocFrame(m1);
    Vm(m2, [FirstFree(m0.used, 0), FirstFree(m1.used, 0)], [], [], [], map[], map[], 1)
  }
}
