/** Demand paging refines one flat, zero-initialised byte array per process: what holds of every
    run, and exactly when. */
module FlatMemory {
  import opened Basics
  import opened Lru
  import opened Memory
  import opened Paging
  import opened FrameInvariant
  import opened PagingRuns

  /** The bytes process i has at page vp: in its frame, else on disk, else zeros. */
  function View(vm: Vm, i: nat, vp: nat): Page
    requires Shape(vm)
  {
    if i >= |vm.pids| then ZeroPage()
    else
      var e := Entry(vm.mem, i, vp);
      if e.isValid then (if e.physPage < |vm.mem.frames| then vm.mem.frames[e.physPage] else ZeroPage())
      else if KeyOf(vm, i, vp) in vm.disk then vm.disk[KeyOf(vm, i, vp)]
      else ZeroPage()
  }

  // ---- Eviction keeps a page exactly when it is dirty or zero ------------------------------------

  /** Frame p is recorded for page q of process j. */
  predicate Holds(vm: Vm, p: nat, j: nat, q: nat)
    requires j < |vm.pids|
  {
    p in vm.owner && vm.owner[p] == KeyOf(vm, j, q)
  }

  predicate DirtyOrZero(vm: Vm, j: nat, q: nat)
    requires Shape(vm)
  {
    Entry(vm.mem, j, q).isDirty || View(vm, j, q) == ZeroPage()
  }

  /** Page q of process j is its own: outside the window MapSharedMem maps, or with no region mapped over it. */
  predicate Own(vm: Vm, j: nat, q: nat) {
    InSharedWindow(q) && j < |vm.pids| && Entry(vm.mem, j, q).isValid ==>
      Entry(vm.mem, j, q).physPage !in vm.shared && KeyOf(vm, j, q) !in vm.disk
  }

  /** Taking a frame here evicts nothing, or no private page that is clean and not zero. */
  ghost predicate SafeTake(vm: Vm)
    requires Shape(vm) && CanTake(vm)
  {
    HasFree(vm.mem) ||
    forall j, q: nat | 0 <= j < |vm.pids| && !InSharedWindow(q) && Holds(vm, TakenFrame(vm), j, q) ::
      DirtyOrZero(vm, j, q)
  }

  /** One eviction: the victim keeps its bytes iff it is dirty or all zero, and else reads as zeros;
      every other private page keeps its bytes. */
  lemma TakeFrameView(vm: Vm, j: nat, q: nat)
    requires Inv(vm) && CanTake(vm) && j < |vm.pids| && Own(vm, j, q)
    ensures var r, evicted := TakeFrame(vm), !HasFree(vm.mem) && Holds(vm, TakenFrame(vm), j, q);
      && (View(r, j, q) == View(vm, j, q) <==> !evicted || DirtyOrZero(vm, j, q))
      && (evicted && !DirtyOrZero(vm, j, q) ==> View(r, j, q) == ZeroPage())
      && Entry(r.mem, j, q).isValid == (Entry(vm.mem, j, q).isValid && !evicted)
      && (Entry(r.mem, j, q).isValid ==> Entry(r.mem, j, q) == Entry(vm.mem, j, q) && Entry(r.mem, j, q).physPage != TakenFrame(vm))
  {
    if HasFree(vm.mem) {
      assert Backed(vm, j, q);
      assert !vm.mem.used[TakenFrame(vm)];
    } else {
      hide View, Entry, DirtyOrZero, Evict;
      EvictView(vm, j, q);
    }
  }

  lemma EvictView(vm: Vm, j: nat, q: nat)
    requires Inv(vm) && Victim(vm.mem.lru, vm.shared).Some? && j < |vm.pids| && Own(vm, j, q)
    ensures var r, p := Evict(vm), Victim(vm.mem.lru, vm.shared).value;
      && (View(r, j, q) == View(vm, j, q) <==> !Holds(vm, p, j, q) || DirtyOrZero(vm, j, q))
      && (Holds(vm, p, j, q) && !DirtyOrZero(vm, j, q) ==> View(r, j, q) == ZeroPage())
      && Entry(r.mem, j, q).isValid == (Entry(vm.mem, j, q).isValid && !Holds(vm, p, j, q))
      && (Entry(r.mem, j, q).isValid ==> Entry(r.mem, j, q) == Entry(vm.mem, j, q) && Entry(r.mem, j, q).physPage != p)
  {
    hide Victim, Evict;
    assert Backed(vm, j, q);
    var p, k := EvictEffect(vm);
    assert Owning(vm, p);
    if KeyOf(vm, j, q) in vm.disk { assert Saved(vm, KeyOf(vm, j, q)); }
  }

  lemma InstallView(vm: Vm, i: nat, vp: nat, p: nat, content: Page, j: nat, q: nat)
    requires Shape(vm) && i < |vm.pids| && vp < |vm.mem.tables[i]| && p < |vm.mem.frames| && j < |vm.pids|
    requires Entry(vm.mem, j, q).isValid && !(j == i && q == vp) ==> Entry(vm.mem, j, q).physPage != p
    ensures View(Install(vm, i, vp, p, content), j, q) == if j == i && q == vp then content else View(vm, j, q)
  {
    InstallEntries(vm, i, vp, p, content);
  }

  /** Growing a table changes nothing a process can see, and not the next frame taken. */
  lemma GrowView(vm: Vm, i: nat, n: nat, j: nat, q: nat)
    requires Shape(vm) && i < |vm.pids| && j < |vm.pids| && CanTake(vm)
    ensures var r := vm.(mem := GrowTable(vm.mem, i, n));
      && Shape(r) && |r.mem.tables[i]| >= n && CanTake(r) && HasFree(r.mem) == HasFree(vm.mem) && TakenFrame(r) == TakenFrame(vm)
      && Entry(r.mem, j, q) == Entry(vm.mem, j, q) && View(r, j, q) == View(vm, j, q)
      && DirtyOrZero(r, j, q) == DirtyOrZero(vm, j, q)
      && Holds(r, TakenFrame(r), j, q) == Holds(vm, TakenFrame(vm), j, q)
  {}

  /** A page fault installs the page's own bytes, from disk or zeros, in the frame it takes. */
  lemma PageInForm(vm: Vm, i: nat, vp: nat)
    requires Inv(vm) && i < |vm.pids| && Live(vm, i) && CanTake(vm) && !Entry(vm.mem, i, vp).isValid
    ensures var vm1 := vm.(mem := GrowTable(vm.mem, i, vp + 1));
            var vm2 := TakeFrame(vm1);
            PageIn(vm, i, vp) == Install(vm2.(disk := vm2.disk - {KeyOf(vm, i, vp)}), i, vp, TakenFrame(vm1), View(vm, i, vp))
  {
    var vm1 := vm.(mem := GrowTable(vm.mem, i, vp + 1));
    GrowInv(vm, i, vp + 1);
    TakeFrameKeeps(vm1, i, vp);
    if HasFree(vm1.mem) {
      assert TakeFrame(vm1).mem.frames[TakenFrame(vm1)] == ZeroPage();
    }
    hide Inv, TakeFrame, Install, CanTake;
    var vm2, k := TakeFrame(vm1), KeyOf(vm, i, vp);
    if k !in vm2.disk {
      assert vm2.disk - {k} == vm2.disk;
    }
  }

  /** A page fault is invisible to the faulting page and does to every other what its eviction does. */
  lemma PageInView(vm: Vm, i: nat, vp: nat, j: nat, q: nat)
    requires Inv(vm) && i < |vm.pids| && j < |vm.pids| && Live(vm, i) && CanTake(vm)
    requires !Entry(vm.mem, i, vp).isValid && Own(vm, j, q)
    ensures var r, evicted := PageIn(vm, i, vp), !HasFree(vm.mem) && Holds(vm, TakenFrame(vm), j, q);
      && (View(r, j, q) == View(vm, j, q) <==> !evicted || DirtyOrZero(vm, j, q))
      && (evicted && !DirtyOrZero(vm, j, q) ==> View(r, j, q) == ZeroPage())
  {
    hide Inv, TakeFrame, CanTake, Install, PageIn, GrowTable, Holds, DirtyOrZero;
    InvShape(vm);
    GrowInv(vm, i, vp + 1);
    GrowView(vm, i, vp + 1, j, q);
    var vm1 := vm.(mem := GrowTable(vm.mem, i, vp + 1));
    var vm2, p, k := TakeFrame(vm1), TakenFrame(vm1), KeyOf(vm, i, vp);
    var vm3 := vm2.(disk := vm2.disk - {k});
    PageInForm(vm, i, vp);
    TakeFrameView(vm1, j, q);
    NotHeld(vm, i, vp);
    DistinctKeys(vm, i, vp, j, q);
    InstallView(vm3, i, vp, p, View(vm, i, vp), j, q);
  }

  lemma NotHeld(vm: Vm, i: nat, vp: nat)
    requires Inv(vm) && i < |vm.pids| && !Entry(vm.mem, i, vp).isValid
    ensures forall p :: !Holds(vm, p, i, vp)
  {
    forall p | p in vm.owner ensures !Holds(vm, p, i, vp) { assert Owning(vm, p); }
  }

  lemma DistinctKeys(vm: Vm, i: nat, vp: nat, j: nat, q: nat)
    requires Inv(vm) && i < |vm.pids| && j < |vm.pids|
    ensures KeyOf(vm, i, vp) == KeyOf(vm, j, q) <==> i == j && vp == q
  {}

  // ---- What the other operations do to a view ----------------------------------------------------

  lemma ReadView(vm: Vm, i: nat, codeSize: nat, va: Word, j: nat, q: nat)
    requires Inv(vm) && i < |vm.pids| && j < |vm.pids|
    ensures var r := ReadByte(vm.mem, i, codeSize, va);
      && View(vm.(mem := r.mem), j, q) == View(vm, j, q)
      && (r.Done? ==> r.val == View(vm, i, va / PAGE_SIZE)[va % PAGE_SIZE])
  {
    assert Backed(vm, i, va / PAGE_SIZE);
  }

  lemma WriteEffect(m: Mem, i: nat, codeSize: nat, va: Word, b: Byte)
    requires i < |m.tables|
    ensures var r, e := WriteByte(m, i, codeSize, va, b), Entry(m, i, va / PAGE_SIZE);
      && (!r.Done? ==> r.mem == m)
      && (r.Done? ==> e.isValid && e.physPage < |m.frames|)
      && (r.Done? ==> r.mem.frames == m.frames[e.physPage := m.frames[e.physPage][va % PAGE_SIZE := b]])
      && (forall j: nat, q: nat :: Entry(r.mem, j, q).isValid == Entry(m, j, q).isValid
                                   && Entry(r.mem, j, q).physPage == Entry(m, j, q).physPage)
  {}

  lemma WriteView(vm: Vm, i: nat, codeSize: nat, va: Word, b: Byte, j: nat, q: nat)
    requires Inv(vm) && i < |vm.pids| && j < |vm.pids| && Own(vm, j, q)
    ensures var r := WriteByte(vm.mem, i, codeSize, va, b);
      View(vm.(mem := r.mem), j, q) ==
        if r.Done? && i == j && q == va / PAGE_SIZE then View(vm, j, q)[va % PAGE_SIZE := b] else View(vm, j, q)
  {
    assert Backed(vm, i, va / PAGE_SIZE) && Backed(vm, j, q);
    WriteEffect(vm.mem, i, codeSize, va, b);
    hide WriteByte, Inv;
  }

  /** No two resident pages of one process share a frame, shared pages included. */
  lemma OwnFramesDisjoint(vm: Vm, i: nat, vp: nat, vq: nat)
    requires Inv(vm) && i < |vm.pids| && Entry(vm.mem, i, vp).isValid && Entry(vm.mem, i, vq).isValid
    requires Entry(vm.mem, i, vp).physPage == Entry(vm.mem, i, vq).physPage
    ensures vp == vq
  {
    assert Backed(vm, i, vp) && Backed(vm, i, vq);
  }

  /** So the writer itself sees exactly its byte change, on whatever page. */
  lemma OwnWriteView(vm: Vm, i: nat, codeSize: nat, va: Word, b: Byte, q: nat)
    requires Inv(vm) && i < |vm.pids|
    ensures var r := WriteByte(vm.mem, i, codeSize, va, b);
      View(vm.(mem := r.mem), i, q) ==
        if r.Done? && q == va / PAGE_SIZE then View(vm, i, q)[va % PAGE_SIZE := b] else View(vm, i, q)
  {
    WriteEffect(vm.mem, i, codeSize, va, b);
    if Entry(vm.mem, i, q).isValid && Entry(vm.mem, i, va / PAGE_SIZE).isValid && q != va / PAGE_SIZE
       && Entry(vm.mem, i, q).physPage == Entry(vm.mem, i, va / PAGE_SIZE).physPage {
      OwnFramesDisjoint(vm, i, q, va / PAGE_SIZE);
    }
  }

  lemma ReleaseView(vm: Vm, i: nat, vp: nat, j: nat, q: nat)
    requires Inv(vm) && i < |vm.pids| && j < |vm.pids| && !InSharedWindow(vp)
    ensures View(Release(vm, i, vp), j, q) == if i == j && q == vp then ZeroPage() else View(vm, j, q)
  {
    DistinctKeys(vm, i, vp, j, q);
    if vp < |vm.mem.tables[i]| {
      ReleaseEffect(vm, i, vp);
      hide Release;
    } else {
      assert KeyOf(vm, i, vp) in vm.disk ==> Saved(vm, KeyOf(vm, i, vp));
    }
  }

  lemma {:induction false} ReleaseRangeView(vm: Vm, i: nat, start: nat, n: nat, j: nat, q: nat)
    requires Inv(vm) && i < |vm.pids| && j < |vm.pids| && start + n <= HEAP_LAST + 1
    ensures View(ReleaseRange(vm, i, start, n), j, q) ==
            if i == j && start <= q < start + n then ZeroPage() else View(vm, j, q)
  {
    hide Inv, Release, View;
    InvShape(vm);
    if n > 0 {
      ReleaseRangeView(vm, i, start, n - 1, j, q);
      ReleaseRangeInv(vm, i, start, n - 1);
      ReleaseView(ReleaseRange(vm, i, start, n - 1), i, start + n - 1, j, q);
    }
  }

  lemma MapSharedView(vm: Vm, i: nat, region: nat, j: nat, q: nat)
    requires Inv(vm) && i < |vm.pids| && j < |vm.pids| && region < |vm.shared| && !(i == j && q == SHARED_PAGE + region)
    ensures View(MapShared(vm, i, region), j, q) == View(vm, j, q)
    ensures Own(vm, j, q) ==> Own(MapShared(vm, i, region), j, q)
  {
    MapSharedEffect(vm, i, region);
  }

  lemma CleanupView(vm: Vm, i: nat, j: nat, q: nat)
    requires Inv(vm) && i < |vm.pids| && j < |vm.pids|
    ensures View(Cleanup(vm, i), j, q) == if i == j then ZeroPage() else View(vm, j, q)
  {
    DistinctKeys(vm, i, q, j, q);
  }

  /** Unused pages read as zeros, so allocating one is invisible to its process. */
  lemma GrabView(vm: Vm, i: nat, vp: nat, j: nat, q: nat)
    requires Inv(vm) && i < |vm.pids| && j < |vm.pids| && vp < |vm.mem.tables[i]| && CanTake(vm)
    requires PageFree(vm, i, vp) && Own(vm, j, q)
    ensures var r, evicted := Grab(vm, i, vp), !HasFree(vm.mem) && Holds(vm, TakenFrame(vm), j, q);
      && (View(r, j, q) == View(vm, j, q) <==> !evicted || DirtyOrZero(vm, j, q))
      && (evicted && !DirtyOrZero(vm, j, q) ==> View(r, j, q) == ZeroPage())
  {
    GrabIsPageIn(vm, i, vp);
    PageInView(vm, i, vp, j, q);
  }

  // ---- A page stays its process's own --------------------------------------------------------------

  lemma TakeFrameOwn(vm: Vm, j: nat, q: nat)
    requires Inv(vm) && CanTake(vm) && j < |vm.pids| && Own(vm, j, q)
    ensures Own(TakeFrame(vm), j, q)
  {
    if !HasFree(vm.mem) {
      hide Victim, Evict;
      assert Backed(vm, j, q);
      var p, k := EvictEffect(vm);
    }
  }

  lemma InstallOwn(vm: Vm, i: nat, vp: nat, p: nat, content: Page, j: nat, q: nat)
    requires Shape(vm) && i < |vm.pids| && vp < |vm.mem.tables[i]| && p < |vm.mem.frames| && j < |vm.pids|
    requires p !in vm.shared && KeyOf(vm, i, vp) !in vm.disk && Own(vm, j, q)
    ensures Own(Install(vm, i, vp, p, content), j, q)
  {
    InstallEntries(vm, i, vp, p, content);
  }

  lemma PageInOwn(vm: Vm, i: nat, vp: nat, j: nat, q: nat)
    requires Inv(vm) && i < |vm.pids| && j < |vm.pids| && Live(vm, i) && CanTake(vm)
    requires !Entry(vm.mem, i, vp).isValid && Own(vm, j, q)
    ensures Own(PageIn(vm, i, vp), j, q)
  {
    hide Inv, TakeFrame, CanTake, Install, PageIn, GrowTable, View;
    InvShape(vm);
    GrowInv(vm, i, vp + 1);
    GrowView(vm, i, vp + 1, j, q);
    var vm1 := vm.(mem := GrowTable(vm.mem, i, vp + 1));
    TakeFrameOwn(vm1, j, q);
    PageInForm(vm, i, vp);
    var vm2, p := TakeFrame(vm1), TakenFrame(vm1);
    InstallOwn(vm2.(disk := vm2.disk - {KeyOf(vm, i, vp)}), i, vp, p, View(vm, i, vp), j, q);
  }

  lemma GrabOwn(vm: Vm, i: nat, vp: nat, j: nat, q: nat)
    requires Inv(vm) && i < |vm.pids| && j < |vm.pids| && vp < |vm.mem.tables[i]| && CanTake(vm)
    requires PageFree(vm, i, vp) && Own(vm, j, q)
    ensures Own(Grab(vm, i, vp), j, q)
  {
    GrabIsPageIn(vm, i, vp);
    PageInOwn(vm, i, vp, j, q);
  }

  lemma WriteOwn(vm: Vm, i: nat, codeSize: nat, va: Word, b: Byte, j: nat, q: nat)
    requires Shape(vm) && i < |vm.pids| && Own(vm, j, q)
    ensures Own(vm.(mem := WriteByte(vm.mem, i, codeSize, va, b).mem), j, q)
  {
    WriteByteEntries(vm.mem, i, codeSize, va, b);
  }

  // ---- Safe operations -----------------------------------------------------------------------------

  /** Every eviction inside the allocation of n pages is safe. */
  ghost predicate SafeGrabs(vm: Vm, i: nat, start: nat, n: nat)
    requires Shape(vm) && i < |vm.pids| && start + n <= |vm.mem.tables[i]| && CanTake(vm)
  {
    n == 0 || (SafeGrabs(vm, i, start, n - 1) && SafeTake(GrabRange(vm, i, start, n - 1)))
  }

  /** The pages handleAlloc_ is going to take, and the state it starts taking them in. */
  function AllocPlan(vm: Vm, i: nat, bytes: int): (r: (Vm, nat, nat))
    requires Shape(vm) && i < |vm.pids|
    ensures Shape(r.0)
  {
    var n := PagesNeeded(bytes);
    var vm1 := vm.(mem := GrowTable(vm.mem, i, HEAP_LAST + 1));
    if bytes <= 0 || n > HEAP_PAGES then (vm, 0, 0)
    else match FirstFit(vm1, i, n, HEAP_FIRST)
      case None => (vm1, 0, 0)
      case Some(s) => (vm1, s, n)
  }

  ghost predicate SafeAlloc(vm: Vm, i: nat, bytes: int)
    requires Shape(vm) && i < |vm.pids|
  {
    var (vm1, start, n) := AllocPlan(vm, i, bytes);
    i < |vm1.pids| && start + n <= |vm1.mem.tables[i]| && CanTake(vm1) ==> SafeGrabs(vm1, i, start, n)
  }

  /** No eviction of this operation takes a private page that is clean and not zero. */
  ghost predicate SafeOp(vm: Vm, op: Op)
    requires Shape(vm)
  {
    Enabled(vm, op) ==>
      match op
      case PageFault(i, _) => SafeTake(vm)
      case AllocHeap(i, bytes) => SafeAlloc(vm, i, bytes)
      case _ => true
  }

  // ---- The flat specification ----------------------------------------------------------------------

  /** Page vp of a freshly loaded program: its first n code bytes at CODE_BASE, zeros elsewhere. */
  function CodeImage(code: seq<Byte>, n: nat, vp: nat): Page
    requires n <= |code|
  {
    seq(256, o requires 0 <= o < 256 =>
      var at := vp * PAGE_SIZE + o - CODE_BASE;
      if 0 <= at < n then code[at] else 0)
  }

  /** What one operation does to page vp of process i in a world of flat byte arrays: a completed
      write stores its byte, freeing or exiting clears, loading stores the program, and nothing else
      has any effect. */
  function FlatStep(vm: Vm, op: Op, i: nat, vp: nat, page: Page): Page
    requires Shape(vm)
  {
    if !Enabled(vm, op) then page
    else match op
      case Write(j, va, b) =>
        if j == i && va / PAGE_SIZE == vp && WriteByte(vm.mem, j, vm.sizes[j], va, b).Done?
        then page[va % PAGE_SIZE := b] else page
      case FreeHeap(j, addr) =>
        if j == i && addr in vm.heaps[j] && addr / PAGE_SIZE <= vp < addr / PAGE_SIZE + vm.heaps[j][addr]
        then ZeroPage() else page
      case Exit(j) => if j == i then ZeroPage() else page
      case Spawn(code) => if i == |vm.pids| && Create(vm, code).1 then CodeImage(code, |code|, vp) else page
      case _ => page
  }

  function FlatRun(vm: Vm, ops: seq<Op>, i: nat, vp: nat): Page
    requires Shape(vm)
  {
    if ops == [] then View(vm, i, vp)
    else
      var before := ops[..|ops| - 1];
      FlatStep(Run(vm, before), ops[|ops| - 1], i, vp, FlatRun(vm, before, i, vp))
  }

  ghost predicate SafeRun(vm: Vm, ops: seq<Op>)
    requires Shape(vm)
  {
    ops == [] || (SafeRun(vm, ops[..|ops| - 1]) && SafeOp(Run(vm, ops[..|ops| - 1]), ops[|ops| - 1]))
  }

  lemma SafeStart(vm: Vm)
    requires Shape(vm)
    ensures SafeRun(vm, [])
  {}

  lemma OneSafe(vm: Vm, op: Op)
    requires Shape(vm)
    ensures SafeRun(vm, [op]) <==> SafeOp(vm, op)
    ensures op.Spawn? ==> SafeOp(vm, op)
  {
    hide Step;
    assert [op][..0] == [];
    EmptyRun(vm);
    SafeStart(vm);
  }

  // ---- Loading -----------------------------------------------------------------------------------

  lemma {:induction false} LoadPagesView(vm: Vm, i: nat, vp: nat, n: nat, j: nat, q: nat)
    requires Inv(vm) && i < |vm.pids| && vp + n <= |vm.mem.tables[i]| && j < |vm.pids|
    requires forall x: nat :: PageFree(vm, i, x)
    requires Own(vm, j, q)
    ensures View(LoadPages(vm, i, vp, n).0, j, q) == View(vm, j, q) && Own(LoadPages(vm, i, vp, n).0, j, q)
  {
    hide Inv, Grab, View, Own, CanTake;
    InvShape(vm);
    if n > 0 {
      LoadPagesView(vm, i, vp, n - 1, j, q);
      LoadPagesInv(vm, i, vp, n - 1);
      LoadPagesEffect(vm, i, vp, n - 1);
      var (v, ok) := LoadPages(vm, i, vp, n - 1);
      if ok && HasFree(v.mem) {
        assert PageFree(vm, i, vp + n - 1);
        FreeMeansRoom(v);
        LoadStepIsGrab(vm, i, vp, n);
        GrabView(v, i, vp + n - 1, j, q);
        GrabOwn(v, i, vp + n - 1, j, q);
      }
    }
  }

  lemma {:induction false} WriteCodeView(vm: Vm, i: nat, code: seq<Byte>, n: nat, j: nat, q: nat)
    requires Inv(vm) && i < |vm.pids| && n <= |code| <= 0xE000 && j < |vm.pids| && Own(vm, j, q)
    requires WriteCode(vm.mem, i, |code|, code, n).Done?
    requires View(vm, i, q) == ZeroPage()
    ensures View(vm.(mem := WriteCode(vm.mem, i, |code|, code, n).mem), j, q) ==
            if i == j then CodeImage(code, n, q) else View(vm, j, q)
    ensures Own(vm.(mem := WriteCode(vm.mem, i, |code|, code, n).mem), j, q)
  {
    hide Inv, View, WriteByte, Own;
    InvShape(vm);
    if n == 0 {
      assert vm.(mem := vm.mem) == vm;
      assert CodeImage(code, 0, q) == ZeroPage();
    } else {
      WriteCodeView(vm, i, code, n - 1, j, q);
      WriteCodeInv(vm, i, code, n - 1);
      var v := vm.(mem := WriteCode(vm.mem, i, |code|, code, n - 1).mem);
      var va: Word := CODE_BASE + n - 1;
      WriteView(v, i, |code|, va, code[n - 1], j, q);
      WriteOwn(v, i, |code|, va, code[n - 1], j, q);
      if i == j {
        CodeImageGrows(code, n, q);
      }
    }
  }

  lemma CodeImageGrows(code: seq<Byte>, n: nat, q: nat)
    requires 0 < n <= |code|
    ensures CodeImage(code, n, q) ==
            if q == (CODE_BASE + n - 1) / PAGE_SIZE
            then CodeImage(code, n - 1, q)[(CODE_BASE + n - 1) % PAGE_SIZE := code[n - 1]]
            else CodeImage(code, n - 1, q)
  {}

  lemma CreateView(vm: Vm, code: seq<Byte>, j: nat, q: nat)
    requires Inv(vm) && |code| <= 0xE000 && Own(vm, j, q)
    ensures View(Create(vm, code).0, j, q) ==
            if j == |vm.pids| && Create(vm, code).1 then CodeImage(code, |code|, q) else View(vm, j, q)
    ensures Own(Create(vm, code).0, j, q)
  {
    hide Inv, LoadPages, WriteCode, View, CodeImage, PageFree, Own;
    InvShape(vm);
    var i, vm1 := |vm.pids|, AddProcess(vm, |code|);
    AddProcessInv(vm, |code|);
    NoProcessOwn(vm, i, q);
    NewProcessView(vm, |code|, j, q);
    NewProcessView(vm, |code|, i, q);
    if |code| == 0 {
      DropLastView(vm1, j, q);
    } else if j > |vm.pids| {
      NoProcessView(vm, j, q);
      NoProcessView(Create(vm, code).0, j, q);
      NoProcessOwn(Create(vm, code).0, j, q);
    } else {
      var n := (CODE_BASE + |code| - 1) / PAGE_SIZE - CODE_PAGE + 1;
      LoadPagesInv(vm1, i, CODE_PAGE, n);
      LoadPagesEffect(vm1, i, CODE_PAGE, n);
      LoadPagesView(vm1, i, CODE_PAGE, n, j, q);
      LoadPagesView(vm1, i, CODE_PAGE, n, i, q);
      var (vm2, ok) := LoadPages(vm1, i, CODE_PAGE, n);
      if ok {
        ValidInRange(vm2, i);
        WriteCodeEffect(vm2.mem, i, code, |code|);
        WriteCodeView(vm2, i, code, |code|, j, q);
      } else {
        DropLastView(vm2, j, q);
        if j == |vm.pids| { NoProcessView(vm, j, q); }
      }
    }
  }

  lemma NewProcessView(vm: Vm, codeSize: nat, j: nat, q: nat)
    requires Inv(vm)
    ensures var r := AddProcess(vm, codeSize);
      View(r, j, q) == View(vm, j, q) && (j >= |vm.pids| ==> View(r, j, q) == ZeroPage()) && (Own(vm, j, q) ==> Own(r, j, q))
  {
    AddProcessInv(vm, codeSize);
    assert j == |vm.pids| ==> PageFree(AddProcess(vm, codeSize), j, q);
  }

  lemma DropLastView(vm: Vm, j: nat, q: nat)
    requires Shape(vm) && |vm.pids| > 0
    ensures View(DropLast(vm), j, q) == if j < |vm.pids| - 1 then View(vm, j, q) else ZeroPage()
    ensures Own(vm, j, q) ==> Own(DropLast(vm), j, q)
  {}

  // ---- Allocation ----------------------------------------------------------------------------------

  lemma {:induction false} GrabRangeView(vm: Vm, i: nat, start: nat, n: nat, j: nat, q: nat)
    requires Inv(vm) && i < |vm.pids| && start + n <= |vm.mem.tables[i]| && CanTake(vm) && RunFree(vm, i, start, n)
    requires j < |vm.pids| && !InSharedWindow(q)
    ensures var r := GrabRange(vm, i, start, n);
      && (SafeGrabs(vm, i, start, n) ==> View(r, j, q) == View(vm, j, q))
      && (View(r, j, q) == View(vm, j, q) || View(r, j, q) == ZeroPage())
  {
    hide Inv, Grab, View, CanTake, PageFree, RunFree;
    InvShape(vm);
    if n > 0 {
      GrabNext(vm, i, start, n);
      GrabRangeView(vm, i, start, n - 1, j, q);
      GrabView(GrabRange(vm, i, start, n - 1), i, start + n - 1, j, q);
    }
  }

  /** An unsafe eviction during an allocation wipes a page for good. */
  lemma {:induction false} UnsafeGrabsLose(vm: Vm, i: nat, start: nat, n: nat) returns (j: nat, q: nat)
    requires Inv(vm) && i < |vm.pids| && start + n <= |vm.mem.tables[i]| && CanTake(vm) && RunFree(vm, i, start, n)
    requires !SafeGrabs(vm, i, start, n)
    ensures j < |vm.pids| && !InSharedWindow(q) && View(vm, j, q) != ZeroPage()
    ensures View(GrabRange(vm, i, start, n), j, q) == ZeroPage()
  {
    hide Inv, Grab, View, CanTake, PageFree, RunFree;
    InvShape(vm);
    var v := GrabRange(vm, i, start, n - 1);
    GrabNext(vm, i, start, n);
    if SafeGrabs(vm, i, start, n - 1) {
      j, q :| 0 <= j < |v.pids| && !InSharedWindow(q) && Holds(v, TakenFrame(v), j, q) && !DirtyOrZero(v, j, q);
      GrabRangeView(vm, i, start, n - 1, j, q);
    } else {
      j, q := UnsafeGrabsLose(vm, i, start, n - 1);
    }
    GrabView(v, i, start + n - 1, j, q);
  }

  /** handleAlloc_ is a run of grabs of unused pages, or nothing but a longer page table. */
  lemma AllocForm(vm: Vm, i: nat, bytes: int)
    requires Inv(vm) && i < |vm.pids| && Live(vm, i) && CanTake(vm)
    ensures var (vm1, start, n) := AllocPlan(vm, i, bytes);
      && Inv(vm1) && CanTake(vm1) && vm1.pids == vm.pids && |vm1.mem.tables| == |vm.mem.tables|
      && start + n <= |vm1.mem.tables[i]| && RunFree(vm1, i, start, n)
      && var r := Alloc(vm, i, bytes).0; r == GrabRange(vm1, i, start, n).(heaps := r.heaps)
  {
    hide Inv, Grab, FirstFit, CanTake, GrowTable;
    InvShape(vm);
    GrowInv(vm, i, HEAP_LAST + 1);
    GrowView(vm, i, HEAP_LAST + 1, i, 0);
    FirstFitInHeap(vm.(mem := GrowTable(vm.mem, i, HEAP_LAST + 1)), i, PagesNeeded(bytes), HEAP_FIRST);
  }

  lemma AllocView(vm: Vm, i: nat, bytes: int, j: nat, q: nat)
    requires Inv(vm) && i < |vm.pids| && Live(vm, i) && CanTake(vm) && j < |vm.pids| && !InSharedWindow(q)
    requires SafeAlloc(vm, i, bytes)
    ensures View(Alloc(vm, i, bytes).0, j, q) == View(vm, j, q)
  {
    hide Inv, Alloc, GrabRange, CanTake, GrowTable, RunFree;
    InvShape(vm);
    AllocForm(vm, i, bytes);
    var (vm1, start, n) := AllocPlan(vm, i, bytes);
    GrowView(vm, i, HEAP_LAST + 1, j, q);
    GrabRangeView(vm1, i, start, n, j, q);
  }

  // ---- Refinement ------------------------------------------------------------------------------------

  lemma NoProcessView(vm: Vm, j: nat, q: nat)
    requires Shape(vm) && j >= |vm.pids|
    ensures View(vm, j, q) == ZeroPage()
  {}

  lemma NoProcessOwn(vm: Vm, j: nat, q: nat)
    requires j >= |vm.pids|
    ensures Own(vm, j, q)
  {}

  /** A safe operation does to every private page what the flat specification says. */
  lemma SafeStepIsFlat(vm: Vm, op: Op, j: nat, q: nat)
    requires Inv(vm) && Roomy(vm) && SafeOp(vm, op) && !InSharedWindow(q)
    ensures View(Step(vm, op), j, q) == FlatStep(vm, op, j, q, View(vm, j, q))
  {
    hide Inv, View, PageIn, Alloc, Free, MapShared, Cleanup, Create, ReadByte, WriteByte, Roomy;
    InvShape(vm);
    if Enabled(vm, op) {
      if op.Spawn? {
        CreateView(vm, op.code, j, q);
      } else if j >= |vm.pids| {
        StepKeepsPids(vm, op);
        NoProcessView(vm, j, q);
        NoProcessView(Step(vm, op), j, q);
      } else {
        match op
        case Read(i, va) => ReadView(vm, i, vm.sizes[i], va, j, q);
        case Write(i, va, b) => WriteView(vm, i, vm.sizes[i], va, b, j, q);
        case PageFault(i, vp) => PageInView(vm, i, vp, j, q);
        case AllocHeap(i, bytes) => AllocView(vm, i, bytes, j, q);
        case FreeHeap(i, addr) => FreeView(vm, i, addr, j, q);
        case MapRegion(i, r) => MapSharedView(vm, i, r, j, q);
        case Exit(i) => CleanupView(vm, i, j, q);
      }
    }
  }

  lemma FreeView(vm: Vm, i: nat, addr: nat, j: nat, q: nat)
    requires Inv(vm) && i < |vm.pids| && j < |vm.pids|
    ensures View(Free(vm, i, addr), j, q) ==
            if addr in vm.heaps[i] && i == j && addr / PAGE_SIZE <= q < addr / PAGE_SIZE + vm.heaps[i][addr]
            then ZeroPage() else View(vm, j, q)
  {
    if addr in vm.heaps[i] {
      assert HeapOk(vm.heaps[i]);
      ReleaseRangeView(vm, i, addr / PAGE_SIZE, vm.heaps[i][addr], j, q);
    }
  }

  lemma UnsafeAllocLoses(vm: Vm, i: nat, bytes: int) returns (j: nat, q: nat)
    requires Inv(vm) && i < |vm.pids| && Live(vm, i) && CanTake(vm) && !SafeAlloc(vm, i, bytes)
    ensures j < |vm.pids| && !InSharedWindow(q) && View(Alloc(vm, i, bytes).0, j, q) != View(vm, j, q)
  {
    hide Inv, Alloc, GrabRange, CanTake, GrowTable, RunFree;
    InvShape(vm);
    AllocForm(vm, i, bytes);
    var (vm1, start, n) := AllocPlan(vm, i, bytes);
    j, q := UnsafeGrabsLose(vm1, i, start, n);
    GrowView(vm, i, HEAP_LAST + 1, j, q);
  }

  /** An unsafe one makes some private page read differently. */
  lemma UnsafeStepIsNotFlat(vm: Vm, op: Op) returns (j: nat, q: nat)
    requires Inv(vm) && Roomy(vm) && !SafeOp(vm, op)
    ensures !InSharedWindow(q) && View(Step(vm, op), j, q) != FlatStep(vm, op, j, q, View(vm, j, q))
  {
    hide Inv, View, PageIn, Alloc;
    InvShape(vm);
    if op.PageFault? {
      j, q :| 0 <= j < |vm.pids| && !InSharedWindow(q) && Holds(vm, TakenFrame(vm), j, q) && !DirtyOrZero(vm, j, q);
      PageInView(vm, op.proc, op.vpage, j, q);
    } else {
      j, q := UnsafeAllocLoses(vm, op.proc, op.bytes);
    }
  }

  /** Every private page of every process reads as the flat specification says. */
  ghost predicate IsFlat(vm: Vm, ops: seq<Op>)
    requires Shape(vm)
  {
    forall j: nat, q: nat | !InSharedWindow(q) :: View(Run(vm, ops), j, q) == FlatRun(vm, ops, j, q)
  }

  /** ... and did so after every step of the run. */
  ghost predicate AlwaysFlat(vm: Vm, ops: seq<Op>)
    requires Shape(vm)
  {
    IsFlat(vm, ops) && (ops == [] || AlwaysFlat(vm, ops[..|ops| - 1]))
  }

  /** Paged memory refines flat memory throughout a run if and only if no eviction of the run took a
      private page that was clean and not zero. */
  lemma {:induction false} FlatIffSafe(numFrames: nat, ops: seq<Op>)
    requires NUM_SHARED <= numFrames <= MAX_FRAMES
    ensures AlwaysFlat(Boot(numFrames), ops) <==> SafeRun(Boot(numFrames), ops)
  {
    var vm0 := Boot(numFrames);
    if ops != [] {
      var before, op := ops[..|ops| - 1], ops[|ops| - 1];
      FlatIffSafe(numFrames, before);
      EveryRunKeepsInv(numFrames, before);
      var vm := Run(vm0, before);
      if AlwaysFlat(vm0, before) {
        if SafeOp(vm, op) {
          forall j: nat, q: nat | !InSharedWindow(q) ensures View(Run(vm0, ops), j, q) == FlatRun(vm0, ops, j, q) {
            SafeStepIsFlat(vm, op, j, q);
            assert View(vm, j, q) == FlatRun(vm0, before, j, q);
          }
        } else {
          var j, q := UnsafeStepIsNotFlat(vm, op);
          assert View(vm, j, q) == FlatRun(vm0, before, j, q);
          assert View(Run(vm0, ops), j, q) != FlatRun(vm0, ops, j, q);
        }
      }
    }
  }

  /** So in such a run a completed read returns the last byte written there, or zero. */
  lemma ReadReturnsLastWrite(numFrames: nat, ops: seq<Op>, i: nat, va: Word)
    requires NUM_SHARED <= numFrames <= MAX_FRAMES
    requires SafeRun(Boot(numFrames), ops)
    requires i < |Run(Boot(numFrames), ops).pids| && !InSharedWindow(va / PAGE_SIZE)
    ensures var vm := Run(Boot(numFrames), ops);
      var r := ReadByte(vm.mem, i, vm.sizes[i], va);
      r.Done? ==> r.val == FlatRun(Boot(numFrames), ops, i, va / PAGE_SIZE)[va % PAGE_SIZE]
  {
    FlatIffSafe(numFrames, ops);
    EveryRunKeepsInv(numFrames, ops);
    var vm := Run(Boot(numFrames), ops);
    ReadView(vm, i, vm.sizes[i], va, i, va / PAGE_SIZE);
    assert IsFlat(Boot(numFrames), ops);
    assert View(vm, i, va / PAGE_SIZE) == FlatRun(Boot(numFrames), ops, i, va / PAGE_SIZE);
  }
}
