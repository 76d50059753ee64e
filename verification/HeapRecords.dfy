/** The allocations on record: what a free gives back, and that a record is there exactly from the Alloc that made it
    to the call that ends it. */
module HeapRecords {
  import opened Basics
  import opened Memory
  import opened Paging
  import opened FrameInvariant
  import opened PagingRuns
  import opened FlatMemory
  import opened HeapAllocator
  import opened DiskRoundTrip
  import opened HeapDisjointness

  /** Process i has an allocation of n pages at address a. */
  ghost predicate OnRecord(vm: Vm, i: nat, a: nat, n: nat) {
    i < |vm.heaps| && a in vm.heaps[i] && vm.heaps[i][a] == n
  }

  // ---- A free ------------------------------------------------------------------------------------------------

  /** A page of the allocation of process i at this address. */
  ghost predicate Freed(vm: Vm, i: nat, addr: nat, j: nat, q: nat) {
    j == i && i < |vm.heaps| && Covers(vm.heaps[i], addr, q)
  }

  /** Freeing takes exactly this record off, of this process, and makes exactly its pages unused; every other page keeps
      its frame or its place on disk. An address not on record changes nothing. */
  lemma FreeLaw(vm: Vm, i: nat, addr: nat)
    requires Inv(vm) && i < |vm.pids| && Shape(vm)
    ensures var r := Free(vm, i, addr);
      && r.pids == vm.pids && |r.heaps| == |vm.heaps|
      && (forall j: nat, a: nat, n: nat :: OnRecord(r, j, a, n) <==> OnRecord(vm, j, a, n) && !(j == i && a == addr))
      && (forall j: nat, q: nat | j < |vm.pids| :: PageFree(r, j, q) <==> PageFree(vm, j, q) || Freed(vm, i, addr, j, q))
      && (forall j: nat, q: nat | j < |vm.pids| && !Freed(vm, i, addr, j, q) ::
            && Entry(r.mem, j, q) == Entry(vm.mem, j, q)
            && (KeyOf(vm, j, q) in r.disk <==> KeyOf(vm, j, q) in vm.disk)
            && (KeyOf(vm, j, q) in vm.disk ==> r.disk[KeyOf(vm, j, q)] == vm.disk[KeyOf(vm, j, q)]))
      && (addr !in vm.heaps[i] ==> r == vm)
  {
    hide Inv, PageFree, ReleaseRange, Entry;
    if addr in vm.heaps[i] {
      HeapsOk(vm, i);
      var s, n := addr / PAGE_SIZE, vm.heaps[i][addr];
      var v := ReleaseRange(vm, i, s, n);
      forall j: nat, q: nat | j < |vm.pids| ensures PageFree(Free(vm, i, addr), j, q) <==> PageFree(vm, j, q) || Freed(vm, i, addr, j, q) {
        ReleaseRangeFree(vm, i, s, n, j, q);
        FreeIgnoresHeaps(v, Free(vm, i, addr).heaps, j, q);
      }
      forall j: nat, q: nat | j < |vm.pids| && !Freed(vm, i, addr, j, q)
        ensures Entry(v.mem, j, q) == Entry(vm.mem, j, q) && SameOnDisk(vm, v, KeyOf(vm, j, q))
      {
        ReleaseRangeFate(vm, i, s, n, j, q);
        ReleaseRangeDisk(vm, i, s, n, j, q);
      }
    }
  }

  ghost predicate SameOnDisk(vm: Vm, r: Vm, k: Key) {
    (k in r.disk <==> k in vm.disk) && (k in vm.disk ==> r.disk[k] == vm.disk[k])
  }

  lemma {:induction false} ReleaseRangeDisk(vm: Vm, i: nat, start: nat, n: nat, j: nat, q: nat)
    requires Inv(vm) && i < |vm.pids| && j < |vm.pids| && start + n <= HEAP_LAST + 1 && !(i == j && start <= q < start + n)
    ensures SameOnDisk(vm, ReleaseRange(vm, i, start, n), KeyOf(vm, j, q))
  {
    hide Inv;
    InvShape(vm);
    if n > 0 {
      ReleaseRangeDisk(vm, i, start, n - 1, j, q);
      DistinctKeys(vm, i, start + n - 1, j, q);
    }
  }

  /** Page q of process i is resident, in frame f. */
  predicate Has(vm: Vm, i: nat, q: nat, f: nat) {
    Entry(vm.mem, i, q).isValid && Entry(vm.mem, i, q).physPage == f
  }

  /** And exactly the frames its resident pages had are free afterwards. */
  lemma FreedFrames(vm: Vm, i: nat, addr: nat, f: nat)
    requires Inv(vm) && i < |vm.pids| && Shape(vm) && f < |vm.mem.used|
    ensures var r := Free(vm, i, addr);
      && |r.mem.used| == |vm.mem.used|
      && (r.mem.used[f] <==> vm.mem.used[f] && !exists q :: Freed(vm, i, addr, i, q) && Has(vm, i, q, f))
  {
    if addr in vm.heaps[i] {
      HeapsOk(vm, i);
      hide Inv, ReleaseRange;
      ReleaseRangeFrames(vm, i, addr / PAGE_SIZE, vm.heaps[i][addr], f);
    }
  }

  lemma {:induction false} ReleaseRangeFrames(vm: Vm, i: nat, start: nat, n: nat, f: nat)
    requires Inv(vm) && i < |vm.pids| && Shape(vm) && start + n <= HEAP_LAST + 1 && f < |vm.mem.used|
    ensures var r := ReleaseRange(vm, i, start, n);
      && |r.mem.used| == |vm.mem.used|
      && (r.mem.used[f] <==> vm.mem.used[f] && !exists q: nat :: start <= q < start + n && Has(vm, i, q, f))
  {
    hide Inv, Release, Entry;
    if n > 0 {
      var v, q := ReleaseRange(vm, i, start, n - 1), start + n - 1;
      ReleaseRangeFrames(vm, i, start, n - 1, f);
      ReleaseRangeInv(vm, i, start, n - 1);
      ReleaseRangeFate(vm, i, start, n - 1, i, q);
      ReleaseFrame(v, i, q, f);
      assert Has(v, i, q, f) == Has(vm, i, q, f);
      assert (exists x: nat :: start <= x < start + n && Has(vm, i, x, f)) <==>
             Has(vm, i, q, f) || exists x: nat :: start <= x < start + n - 1 && Has(vm, i, x, f);
    }
  }

  lemma ReleaseFrame(vm: Vm, i: nat, q: nat, f: nat)
    requires Inv(vm) && i < |vm.pids| && Shape(vm) && f < |vm.mem.used| && !InSharedWindow(q)
    ensures var r := Release(vm, i, q);
      |r.mem.used| == |vm.mem.used| && (r.mem.used[f] <==> vm.mem.used[f] && !Has(vm, i, q, f))
  {
    assert Backed(vm, i, q);
  }

  // ---- Runs --------------------------------------------------------------------------------------------------

  /** This operation is an Alloc of process i that returns address a, for a request of n pages. */
  ghost predicate Grants(vm: Vm, op: Op, i: nat, a: nat, n: nat)
    requires Shape(vm)
  {
    && op.AllocHeap? && op.proc == i && Enabled(vm, op)
    && a != 0 && Alloc(vm, i, op.bytes).1 == a && n == CeilPages(ToWord(op.bytes))
  }

  /** It ends the allocation of process i at a: a free of it, the exit of i, or an Alloc that returns a again. */
  ghost predicate Ends(vm: Vm, op: Op, i: nat, a: nat)
    requires Shape(vm)
  {
    Enabled(vm, op) &&
    (op == FreeHeap(i, a) || op == Op.Exit(i) || (op.AllocHeap? && op.proc == i && a != 0 && Alloc(vm, i, op.bytes).1 == a))
  }

  lemma AllocRecord(vm: Vm, i: nat, bytes: int, j: nat, a: nat, n: nat)
    requires Inv(vm) && Shape(vm) && i < |vm.pids| && Live(vm, i) && CanTake(vm)
    ensures OnRecord(Alloc(vm, i, bytes).0, j, a, n) <==>
              if j == i && a != 0 && Alloc(vm, i, bytes).1 == a then n == CeilPages(ToWord(bytes)) else OnRecord(vm, j, a, n)
  {
    hide Inv, Alloc, CanTake, GrabRange, FirstFit;
    AllocRecords(vm, i, bytes);
    assert PagesNeeded(bytes) > 0 ==> PagesNeeded(bytes) == CeilPages(ToWord(bytes));
  }

  lemma SpawnRecord(vm: Vm, code: seq<Byte>, j: nat, a: nat, n: nat)
    requires Inv(vm) && Shape(vm) && |code| <= 0xE000
    ensures OnRecord(Create(vm, code).0, j, a, n) <==> OnRecord(vm, j, a, n)
  {
    hide Inv, Create;
    NewHeaps(vm, code);
  }

  /** One operation: what is on record afterwards is what it grants, and what was on record and it does not end. */
  lemma StepRecord(vm: Vm, op: Op, i: nat, a: nat, n: nat)
    requires Inv(vm) && Shape(vm)
    ensures OnRecord(Step(vm, op), i, a, n) <==> Grants(vm, op, i, a, n) || (OnRecord(vm, i, a, n) && !Ends(vm, op, i, a))
  {
    hide Inv, PageIn, Alloc, Free, MapShared, Create, CanTake, CeilPages;
    if Enabled(vm, op) {
      match op
      case Read(_, _) =>
      case Write(_, _, _) =>
      case PageFault(j, vp) => PageInHeaps(vm, j, vp);
      case AllocHeap(j, bytes) => AllocRecord(vm, j, bytes, i, a, n);
      case FreeHeap(j, addr) => FreeLaw(vm, j, addr);
      case MapRegion(j, r) => MapSharedEffect(vm, j, r);
      case Exit(_) =>
      case Spawn(code) => SpawnRecord(vm, code, i, a, n);
    }
  }

  /** Operation k of the run granted n pages at a to process i, and none since has ended that. */
  ghost predicate GrantedSince(vm: Vm, ops: seq<Op>, i: nat, a: nat, n: nat, k: nat)
    requires Shape(vm)
  {
    && k < |ops| && Grants(Run(vm, ops[..k]), ops[k], i, a, n)
    && forall m | k < m < |ops| :: !Ends(Run(vm, ops[..m]), ops[m], i, a)
  }

  /** Over every run from a cold start: process i has n pages on record at a exactly when some Alloc of its returned a
      for a request of n pages, and neither a free of a, nor its exit, nor an Alloc that returned a again has come since. */
  lemma {:induction false} RecordsAreGrants(numFrames: nat, ops: seq<Op>, i: nat, a: nat, n: nat)
    requires NUM_SHARED <= numFrames <= MAX_FRAMES
    ensures OnRecord(Run(Boot(numFrames), ops), i, a, n) <==> exists k: nat :: GrantedSince(Boot(numFrames), ops, i, a, n, k)
  {
    hide Inv, Step, Boot, Grants, Ends, OnRecord, Run;
    var vm := Boot(numFrames);
    if ops == [] {
      NothingOnRecord(numFrames, i, a, n);
    } else {
      var before, last := ops[..|ops| - 1], |ops| - 1;
      var v := Run(vm, before);
      RecordsAreGrants(numFrames, before, i, a, n);
      EveryRunKeepsInv(numFrames, before);
      StepRecord(v, ops[last], i, a, n);
      RunLast(vm, ops);
      forall m: nat | m < last ensures ops[..m] == before[..m] && ops[m] == before[m] {}
      if k: nat :| GrantedSince(vm, before, i, a, n, k) && !Ends(v, ops[last], i, a) {
        assert GrantedSince(vm, ops, i, a, n, k);
      }
      if Grants(v, ops[last], i, a, n) { assert GrantedSince(vm, ops, i, a, n, last); }
      if k: nat :| GrantedSince(vm, ops, i, a, n, k) {
        if k < last {
          forall m | k < m < |before| ensures !Ends(Run(vm, before[..m]), before[m], i, a) {
            assert !Ends(Run(vm, ops[..m]), ops[m], i, a);
          }
          assert GrantedSince(vm, before, i, a, n, k) && !Ends(v, ops[last], i, a);
        }
      }
    }
  }

  lemma RunLast(vm: Vm, ops: seq<Op>)
    requires Shape(vm) && ops != []
    ensures Run(vm, ops) == Step(Run(vm, ops[..|ops| - 1]), ops[|ops| - 1])
  {
    hide Step;
  }

  lemma NothingOnRecord(numFrames: nat, i: nat, a: nat, n: nat)
    requires NUM_SHARED <= numFrames <= MAX_FRAMES
    ensures !OnRecord(Run(Boot(numFrames), []), i, a, n)
  {
    EmptyRun(Boot(numFrames));
  }
}
