/** Runs of the paging system: any interleaving of byte accesses, page faults, allocations, frees,
    shared mappings, exits and process creations. */
module PagingRuns {
  import opened Basics
  import opened Lru
  import opened Memory
  import opened Paging
  import opened FrameInvariant

  datatype Op =
    | Read(proc: nat, vaddr: Word)
    | Write(proc: nat, vaddr: Word, val: Byte)
    | PageFault(proc: nat, vpage: nat)
    | AllocHeap(proc: nat, bytes: int)
    | FreeHeap(proc: nat, addr: nat)
    | MapRegion(proc: nat, region: nat)
    | Exit(proc: nat)
    | Spawn(code: seq<Byte>)

  /** When the OS can issue the operation: by a live process, and a fault only on a page that is not
      resident. Program images end below the stack top, as the source's page table requires. */
  predicate Enabled(vm: Vm, op: Op)
    requires Shape(vm)
  {
    match op
    case Spawn(code) => |code| <= 0xE000
    case _ =>
      op.proc < |vm.pids| && Live(vm, op.proc) &&
      match op
      case PageFault(i, vp) => !Entry(vm.mem, i, vp).isValid && CanTake(vm)
      case AllocHeap(i, _) => CanTake(vm)
      case MapRegion(_, r) => r < NUM_SHARED
      case _ => true
  }

  function Step(vm: Vm, op: Op): (r: Vm)
    requires Shape(vm)
    ensures Shape(r)
  {
    if !Enabled(vm, op) then vm
    else match op
      case Read(i, va) => vm.(mem := ReadByte(vm.mem, i, vm.sizes[i], va).mem)
      case Write(i, va, b) => vm.(mem := WriteByte(vm.mem, i, vm.sizes[i], va, b).mem)
      case PageFault(i, vp) => PageIn(vm, i, vp)
      case AllocHeap(i, bytes) => Alloc(vm, i, bytes).0
      case FreeHeap(i, addr) => Free(vm, i, addr)
      case MapRegion(i, r) => MapShared(vm, i, r)
      case Exit(i) => Cleanup(vm, i)
      case Spawn(code) => Create(vm, code).0
  }

  function Run(vm: Vm, ops: seq<Op>): (r: Vm)
    requires Shape(vm)
    ensures Shape(r)
  {
    if ops == [] then vm else Step(Run(vm, ops[..|ops| - 1]), ops[|ops| - 1])
  }

  lemma EmptyRun(vm: Vm)
    requires Shape(vm)
    ensures Run(vm, []) == vm
  {}

  lemma OneStep(vm: Vm, op: Op)
    requires Shape(vm)
    ensures Run(vm, [op]) == Step(vm, op)
  {
    hide Step;
    assert [op][..0] == [];
  }

  lemma StepKeepsPids(vm: Vm, op: Op)
    requires Shape(vm) && !op.Spawn?
    ensures Step(vm, op).pids == vm.pids
  {}

  lemma StepInv(vm: Vm, op: Op)
    requires Inv(vm) && Roomy(vm)
    ensures Inv(Step(vm, op)) && Roomy(Step(vm, op))
  {
    if Enabled(vm, op) {
      match op
      case Read(i, va) => TranslateInv(vm, i, vm.sizes[i], va, false);
      case Write(i, va, b) => WriteInv(vm, i, vm.sizes[i], va, b);
      case PageFault(i, vp) => PageInInv(vm, i, vp);
      case AllocHeap(i, bytes) => AllocInv(vm, i, bytes);
      case FreeHeap(i, addr) => FreeInv(vm, i, addr);
      case MapRegion(i, r) => MapSharedInv(vm, i, r);
      case Exit(i) => CleanupLeaksNothing(vm, i);
      case Spawn(code) => CreateInv(vm, code);
    }
  }

  /** The frame invariant holds in every reachable state, and whenever a process exists a frame can
      be had, so no fault or allocation ever runs into "no evictable physical page". */
  lemma {:induction false} EveryRunKeepsInv(numFrames: nat, ops: seq<Op>)
    requires NUM_SHARED <= numFrames <= MAX_FRAMES
    ensures var vm := Run(Boot(numFrames), ops);
      Inv(vm) && Roomy(vm) && (|vm.pids| > 0 ==> CanTake(vm))
  {
    if ops == [] {
      BootInv(numFrames);
    } else {
      EveryRunKeepsInv(numFrames, ops[..|ops| - 1]);
      StepInv(Run(Boot(numFrames), ops[..|ops| - 1]), ops[|ops| - 1]);
    }
    var vm := Run(Boot(numFrames), ops);
    if |vm.pids| > 0 {
      AlwaysAFrame(vm);
    }
  }
}
