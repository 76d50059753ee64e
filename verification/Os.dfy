/** The operating system as the source has it: one object whose methods update the process table, the
    queues, the simulated disk and the frame owners in place. Each method is proved against the functions
    of modules Paging, Scheduling and Kernel. */
module OsDevice {
  import opened Basics
  import Lru
  import opened Memory
  import opened Paging
  import opened MmuDevice
  import opened CpuDevice
  import opened ProgramImage
  import P = Processor
  import S = Scheduling
  import SI = SchedulerInvariant
  import K = Kernel
  import KR = KernelRuns
  import System
  import SR = SchedulerRuns
  import FrameInvariant
  import opened FlatMemory

  /** A process control block; its page table is kept with the MMU. */
  datatype Pcb = Pcb(
    pid: nat, priority: nat, state: S.ProcState, sleepCounter: nat, waitingLockId: int, waitingEventId: int,
    ctx: P.Ctx, codeSize: nat, heapAllocations: map<nat, nat>)

  // ---- Columns of the process table ---------------------------------------------------------------------

  function Pids(ps: seq<Pcb>): (r: seq<nat>)
    ensures |r| == |ps| && forall k | 0 <= k < |ps| :: r[k] == ps[k].pid
  {
    seq(|ps|, k requires 0 <= k < |ps| => ps[k].pid)
  }

  function Sizes(ps: seq<Pcb>): (r: seq<nat>)
    ensures |r| == |ps| && forall k | 0 <= k < |ps| :: r[k] == ps[k].codeSize
  {
    seq(|ps|, k requires 0 <= k < |ps| => ps[k].codeSize)
  }

  function Heaps(ps: seq<Pcb>): (r: seq<map<nat, nat>>)
    ensures |r| == |ps| && forall k | 0 <= k < |ps| :: r[k] == ps[k].heapAllocations
  {
    seq(|ps|, k requires 0 <= k < |ps| => ps[k].heapAllocations)
  }

  function TaskOf(p: Pcb): S.Task {
    S.Task(p.pid, p.priority, p.state, p.sleepCounter, p.waitingLockId, p.waitingEventId)
  }

  function Tasks(ps: seq<Pcb>): (r: seq<S.Task>)
    ensures |r| == |ps| && forall k | 0 <= k < |ps| :: r[k] == TaskOf(ps[k])
  {
    seq(|ps|, k requires 0 <= k < |ps| => TaskOf(ps[k]))
  }

  function Contexts(ps: seq<Pcb>): (r: seq<P.Ctx>)
    ensures |r| == |ps| && forall k | 0 <= k < |ps| :: r[k] == ps[k].ctx
  {
    seq(|ps|, k requires 0 <= k < |ps| => ps[k].ctx)
  }

  /** Changing one PCB changes one cell of each column. */
  lemma ChangedPcb(ps: seq<Pcb>, i: nat, p: Pcb)
    requires i < |ps|
    ensures Pids(ps[i := p]) == Pids(ps)[i := p.pid]
    ensures Sizes(ps[i := p]) == Sizes(ps)[i := p.codeSize]
    ensures Heaps(ps[i := p]) == Heaps(ps)[i := p.heapAllocations]
    ensures Tasks(ps[i := p]) == Tasks(ps)[i := TaskOf(p)]
    ensures Contexts(ps[i := p]) == Contexts(ps)[i := p.ctx]
    ensures p.pid == ps[i].pid ==> Pids(ps[i := p]) == Pids(ps)
    ensures p.codeSize == ps[i].codeSize ==> Sizes(ps[i := p]) == Sizes(ps)
    ensures p.heapAllocations == ps[i].heapAllocations ==> Heaps(ps[i := p]) == Heaps(ps)
    ensures TaskOf(p) == TaskOf(ps[i]) ==> Tasks(ps[i := p]) == Tasks(ps)
    ensures p.ctx == ps[i].ctx ==> Contexts(ps[i := p]) == Contexts(ps)
  {}

  /** The constructor's two allocations find free frames. */
  lemma BootFrees(n: nat)
    requires NUM_SHARED <= n <= MAX_FRAMES
    ensures var m0 := Mem(seq(n, _ => ZeroPage()), seq(n, _ => false), [], []);
            HasFree(m0) && HasFree(AllocFrame(m0))
  {
    var m0 := Mem(seq(n, _ => ZeroPage()), seq(n, _ => false), [], []);
    var used := AllocFrame(m0).used;
    assert FirstFree(m0.used, 0) == 0 && used[0] && !used[1];
    assert FirstFree(used, 0) == FirstFree(used, 1) == 1;
  }

  class Os {
    const mmu: Mmu
    const cpu: Cpu
    var nextPid: nat
    var processes: seq<Pcb>
    var ready: seq<seq<nat>>
    var sleeping: seq<nat>
    var sharedPhysPages: seq<nat>
    var locks: seq<S.Lock>
    var events: seq<S.Event>
    var disk: map<Key, Page>
    var physPageOwner: map<nat, Key>
    ghost var requests: seq<seq<nat>>
    ghost var grants: seq<seq<nat>>

    ghost function Vm(): Paging.Vm
      reads this, mmu
    {
      Paging.Vm(mmu.mem, sharedPhysPages, Pids(processes), Sizes(processes), Heaps(processes), disk, physPageOwner, nextPid)
    }

    ghost function Sched(): S.Sched
      reads this
    {
      S.Sched(Tasks(processes), ready, sleeping, locks, events, requests, grants)
    }

    ghost predicate Valid()
      reads this, mmu, mmu.physMem, mmu.physUsed, cpu
    {
      && mmu.Valid() && cpu.mmu == mmu && cpu.Wired()
      && Shape(Vm()) && S.Sized(Sched())
      && (forall p | p in processes :: P.CtxOk(p.ctx))
    }

    constructor (frames: nat)
      requires NUM_SHARED <= frames <= MAX_FRAMES
      ensures Valid() && fresh(mmu) && fresh(mmu.physMem) && fresh(mmu.physUsed) && fresh(cpu) && fresh(cpu.regs)
      ensures Vm() == Boot(frames) && Sched() == S.InitSched() && processes == []
      ensures Model() == System.After(frames, [])
    {
      hide Mmu.Valid, Linked, Lru.Replay, AllocFrame, HasFree;
      var m := new Mmu(frames);
      BootFrees(frames);
      var a := m.AllocPhysPage();
      var b := m.AllocPhysPage();
      mmu := m;
      cpu := new Cpu(m);
      nextPid, processes, sleeping, disk, physPageOwner := 1, [], [], map[], map[];
      ready := seq(33, _ => []);
      sharedPhysPages := [a.value, b.value];
      locks := seq(S.NUM_LOCKS, _ => S.Lock(false, 0, []));
      events := seq(S.NUM_EVENTS, _ => S.Event(false, []));
      requests, grants := seq(S.NUM_LOCKS, _ => []), seq(S.NUM_LOCKS, _ => []);
    }

    // ---- Queues (OS.cpp:359-388) ----------------------------------------------------------------------

    method EnqueueReady(i: nat)
      requires Valid() && i < |processes|
      modifies this`processes, this`ready
      ensures Valid() && Vm() == old(Vm()) && Sched() == S.Enqueue(old(Sched()), i)
      ensures Contexts(processes) == old(Contexts(processes))
    {
      hide Mmu.Valid;
      var prio := processes[i].priority;
      if prio < 1 { prio := 1; }
      if prio > 32 { prio := 32; }
      ChangedPcb(processes, i, processes[i].(state := S.Ready));
      processes := processes[i := processes[i].(state := S.Ready)];
      ready := ready[prio := ready[prio] + [i]];
    }

    method PickNextReady() returns (r: Option<nat>)
      requires Valid()
      modifies this`ready
      ensures Valid() && Vm() == old(Vm()) && (Sched(), r) == S.PickNext(old(Sched()))
    {
      var prio := 1;
      while prio <= 32 && ready[prio] == []
        invariant 1 <= prio <= 33 && ready == old(ready)
        invariant S.FirstReady(ready, prio) == S.FirstReady(ready, 1)
      {
        prio := prio + 1;
      }
      if prio > 32 { return None; }
      r := Some(ready[prio][0]);
      ready := ready[prio := ready[prio][1..]];
    }

    method TickSleepers()
      requires Valid() && S.Below(sleeping, |processes|)
      modifies this`processes, this`ready, this`sleeping
      ensures Valid() && Vm() == old(Vm()) && Sched() == S.Tick(old(Sched()))
      ensures Contexts(processes) == old(Contexts(processes))
    {
      hide Mmu.Valid, S.TickOne;
      var n, k := |sleeping|, 0;
      while k < n && sleeping != []
        invariant 0 <= k <= n && Valid() && Vm() == old(Vm()) && S.Below(sleeping, |processes|)
        invariant S.TickMany(Sched(), n - k) == S.Tick(old(Sched()))
        invariant Contexts(processes) == old(Contexts(processes))
      {
        TickOneSleeper();
        k := k + 1;
      }
    }

    /** One turn of that loop. */
    method TickOneSleeper()
      requires Valid() && sleeping != [] && S.Below(sleeping, |processes|)
      modifies this`processes, this`ready, this`sleeping
      ensures Valid() && Vm() == old(Vm()) && Sched() == S.TickOne(old(Sched()))
      ensures Contexts(processes) == old(Contexts(processes))
    {
      hide Mmu.Valid, S.Enqueue;
      var idx := sleeping[0];
      sleeping := sleeping[1..];
      if processes[idx].state != S.WaitingSleep { return; }
      var c := processes[idx].sleepCounter;
      if c > 0 {
        ChangedPcb(processes, idx, processes[idx].(sleepCounter := c - 1));
        processes := processes[idx := processes[idx].(sleepCounter := c - 1)];
      } else {
        assert Tasks(processes)[idx := Tasks(processes)[idx]] == Tasks(processes);
      }
      if processes[idx].sleepCounter == 0 {
        EnqueueReady(idx);
      } else {
        sleeping := sleeping + [idx];
      }
    }

    // ---- Eviction and page faults (OS.cpp:236-312) --------------------------------------------------------

    /** The least recently used unpinned frame, taken from its page; nothing when all frames are pinned. */
    method EvictOnePage() returns (r: Option<nat>)
      requires Valid()
      modifies this`disk, this`physPageOwner, mmu
      ensures Valid() && Sched() == old(Sched()) && Contexts(processes) == old(Contexts(processes))
      ensures r == Lru.Victim(old(mmu.mem.lru), sharedPhysPages)
      ensures Vm() == if r.Some? then Evict(old(Vm())) else old(Vm())
      ensures mmu.active == old(mmu.active) && mmu.codeSize == old(mmu.codeSize)
    {
      hide Linked, Lru.Replay, Lru.Victim, S.Sized, Unmap, Lru.LastTouch;
      r := mmu.GetLRUPhysPage(sharedPhysPages);
      if r.None? { return; }
      var ppage := r.value;
      if ppage in physPageOwner {
        var k := physPageOwner[ppage];
        UnmapOwner(ppage, k);
        physPageOwner := physPageOwner - {ppage};
      }
      mmu.RemoveLRUEntry(ppage);
    }

    /** The loop over processes_ inside eviction: the first process with this pid and a table reaching the page. */
    method UnmapOwner(ppage: nat, k: Key)
      requires Valid() && ppage < |mmu.mem.frames|
      modifies this`disk, mmu`tables, mmu`mem
      ensures Valid() && Sched() == old(Sched()) && Vm() == Unmap(old(Vm()), ppage, k)
    {
      hide Linked, Lru.Replay, S.Sized;
      var j := 0;
      while j < |processes| && !(processes[j].pid == k.pid && k.vpage < |mmu.tables[j]|)
        invariant 0 <= j <= |processes|
        invariant FindOwner(Vm(), k, j) == FindOwner(Vm(), k, 0)
      {
        j := j + 1;
      }
      if j < |processes| {
        var e := mmu.tables[j][k.vpage];
        if e.isDirty {
          var buf := mmu.ReadPhysPage(ppage);
          disk := disk[k := buf];
        }
        mmu.SetEntry(j, k.vpage, e.(isValid := false, physPage := UNMAPPED));
      }
    }

    /** A frame for a page: fresh, or evicted; `fresh` says which. */
    method ObtainFrame() returns (r: Option<nat>, isFresh: bool)
      requires Valid() && SharedInUse(Vm())
      modifies this`disk, this`physPageOwner, mmu, mmu.physMem, mmu.physUsed
      ensures Valid() && Sched() == old(Sched()) && Contexts(processes) == old(Contexts(processes))
      ensures r.Some? <==> CanTake(old(Vm()))
      ensures r.Some? ==> r.value == TakenFrame(old(Vm())) && Vm() == TakeFrame(old(Vm())) && isFresh == HasFree(old(mmu.mem))
      ensures r.None? ==> Vm() == old(Vm())
      ensures mmu.active == old(mmu.active) && mmu.codeSize == old(mmu.codeSize)
    {
      hide Linked, Lru.Replay, S.Sized, Evict, AllocFrame, HasFree;
      r := mmu.AllocPhysPage();
      isFresh := r.Some?;
      if r.None? {
        r := EvictOnePage();
      }
    }

    /** Point entry vp of process i at the frame, record the owner, touch it. */
    method WireUp(i: nat, vp: nat, ppage: nat)
      requires Valid() && i < |processes| && vp < |mmu.tables[i]| && ppage < |mmu.mem.frames|
      modifies this`physPageOwner, mmu
      ensures Valid() && Sched() == old(Sched()) && Contexts(processes) == old(Contexts(processes))
      ensures Vm() == Install(old(Vm()), i, vp, ppage, old(mmu.mem.frames[ppage]))
      ensures mmu.active == old(mmu.active) && mmu.codeSize == old(mmu.codeSize)
    {
      hide Linked, Lru.Replay, S.Sized;
      assert mmu.mem.frames[ppage := mmu.mem.frames[ppage]] == mmu.mem.frames;
      mmu.SetEntry(i, vp, PageEntry(ppage, true, false));
      physPageOwner := physPageOwner[ppage := Key(processes[i].pid, vp)];
      mmu.TouchPhysPage(ppage);
    }

    /** Put the saved bytes of the page into the frame, or zeros if it is not a fresh frame. */
    method FillFrame(ppage: nat, diskKey: Key, gotFresh: bool)
      requires Valid() && ppage < |mmu.mem.frames|
      modifies this`disk, mmu`mem, mmu.physMem
      ensures Valid() && Sched() == old(Sched())
      ensures var content := if diskKey in old(disk) then old(disk)[diskKey]
                             else if gotFresh then old(mmu.mem).frames[ppage] else ZeroPage();
              Vm() == old(Vm()).(mem := old(mmu.mem).(frames := old(mmu.mem).frames[ppage := content]),
                                 disk := old(disk) - {diskKey})
    {
      hide Linked, Lru.Replay, S.Sized;
      if diskKey in disk {
        mmu.WritePhysPage(ppage, disk[diskKey]);
        disk := disk - {diskKey};
      } else {
        assert disk - {diskKey} == disk;
        assert mmu.mem.frames[ppage := mmu.mem.frames[ppage]] == mmu.mem.frames;
        if !gotFresh { mmu.ZeroPhysPage(ppage); }
      }
    }

    /** handlePageFault_; false when no frame can be had, and the exception leaves run(). */
    method HandlePageFault(i: nat, vp: nat) returns (ok: bool)
      requires Valid() && i < |processes| && SharedInUse(Vm())
      modifies this`processes, this`ready, this`disk, this`physPageOwner, mmu, mmu.physMem, mmu.physUsed
      ensures Valid() && Contexts(processes) == old(Contexts(processes)) && ok == CanTake(old(Vm()))
      ensures ok ==> Vm() == PageIn(old(Vm()), i, vp) && Sched() == S.Enqueue(old(Sched()), i)
      ensures mmu.active == old(mmu.active) && mmu.codeSize == old(mmu.codeSize)
    {
      hide Linked, Lru.Replay, S.Sized, S.Enqueue, TakeFrame, TakenFrame, Install, GrowTable, HasFree, CanTake,
           PageIn, Mmu.Valid;
      mmu.TablesAgree();
      GrownCanTake(Vm(), i, vp + 1);
      mmu.Resize(i, vp + 1);
      var ppage, gotFresh := ObtainFrame();
      if ppage.None? { return false; }
      var diskKey := Key(processes[i].pid, vp);
      FillFrame(ppage.value, diskKey, gotFresh);
      PageInSteps(old(Vm()), i, vp, Vm());
      mmu.TablesAgree();
      WireUp(i, vp, ppage.value);
      EnqueueReady(i);
      ok := true;
    }

    // ---- Heap (OS.cpp:408-516) ------------------------------------------------------------------------------

    /** The scan with runStart and runLen: the first n unused pages in a row. */
    method FindRun(i: nat, n: nat) returns (r: Option<nat>)
      requires Valid() && i < |processes| && |mmu.tables[i]| > HEAP_LAST
      ensures r == FirstFit(Vm(), i, n, HEAP_FIRST)
    {
      hide Linked, Lru.Replay, S.Sized, Mmu.Valid, Wf, FirstFit, RunFree;
      mmu.TablesAgree();
      NoRun(Vm(), i, HEAP_FIRST);
      var runStart, runLen, vp := 0, 0, HEAP_FIRST;
      while vp <= HEAP_LAST
        invariant HEAP_FIRST <= vp <= HEAP_LAST + 1
        invariant runLen <= vp - HEAP_FIRST && (runLen > 0 ==> runStart == vp - runLen)
        invariant n > 0 ==> runLen < n
        invariant RunFree(Vm(), i, vp - runLen, runLen)
        invariant FirstFit(Vm(), i, n, HEAP_FIRST) == FirstFit(Vm(), i, n, vp - runLen)
      {
        var e := mmu.tables[i][vp];
        var inUse := e.isValid || e.physPage != UNMAPPED || Key(processes[i].pid, vp) in disk;
        assert inUse == !PageFree(Vm(), i, vp);
        if !inUse {
          LongerRun(Vm(), i, vp - runLen, runLen);
          if runLen == 0 { runStart := vp; }
          runLen := runLen + 1;
          if runLen == n {
            FoundRun(Vm(), i, n, runStart);
            return Some(runStart);
          }
        } else {
          SkipUsed(Vm(), i, n, vp - runLen, vp);
          NoRun(Vm(), i, vp + 1);
          runLen := 0;
        }
        vp := vp + 1;
      }
      EndOfHeap(Vm(), i, n, vp - runLen);
      r := None;
    }

    /** One turn of the allocation loop: a frame for page vp, zeroed unless it is fresh. */
    method GrabPage(i: nat, vp: nat) returns (ok: bool)
      requires Valid() && i < |processes| && vp < |mmu.tables[i]| && SharedInUse(Vm())
      modifies this`disk, this`physPageOwner, mmu, mmu.physMem, mmu.physUsed
      ensures Valid() && Sched() == old(Sched()) && Contexts(processes) == old(Contexts(processes))
      ensures ok == CanTake(old(Vm())) && Vm() == if ok then Grab(old(Vm()), i, vp) else old(Vm())
      ensures mmu.active == old(mmu.active) && mmu.codeSize == old(mmu.codeSize)
    {
      hide Linked, Lru.Replay, S.Sized, TakeFrame, TakenFrame, HasFree, CanTake, Install, Mmu.Valid;
      mmu.TablesAgree();
      var pp, isFresh := ObtainFrame();
      if pp.None? { return false; }
      ghost var vm1, p := Vm(), pp.value;
      ghost var content := if isFresh then vm1.mem.frames[p] else ZeroPage();
      InstallFilled(vm1, i, vp, p, content);
      assert vm1.mem.frames[p := vm1.mem.frames[p]] == vm1.mem.frames;
      if !isFresh { mmu.ZeroPhysPage(pp.value); }
      mmu.TablesAgree();
      WireUp(i, vp, pp.value);
      ok := true;
    }

    /** handleAlloc_; false when an allocation needs a frame and none can be had. */
    method HandleAlloc(i: nat) returns (ok: bool)
      requires Valid() && i < |processes| && SharedInUse(Vm())
      requires P.IsReg(processes[i].ctx.trapRegA) && P.IsReg(processes[i].ctx.trapRegB)
      modifies this`processes, this`ready, this`disk, this`physPageOwner, mmu, mmu.physMem, mmu.physUsed
      ensures Valid()
      ensures var bytes := old(processes[i].ctx).regs[old(processes[i].ctx).trapRegA];
        && ok == (CanTake(old(Vm())) || AllocPlan(old(Vm()), i, bytes).2 == 0)
        && (ok && CanTake(old(Vm())) ==> Answered(old(Vm()), old(Sched()), old(Contexts(processes)), i, Alloc(old(Vm()), i, bytes)))
        && (ok && !CanTake(old(Vm())) ==> Answered(old(Vm()), old(Sched()), old(Contexts(processes)), i, (AllocPlan(old(Vm()), i, bytes).0, 0)))
      ensures mmu.active == old(mmu.active) && mmu.codeSize == old(mmu.codeSize)
    {
      hide Linked, Lru.Replay, S.Sized, S.Enqueue, Grab, GrabRange, HasFree, CanTake, Mmu.Valid, FirstFit,
           GrowTable, Alloc, RunFree, AllocPlan, PagesNeeded;
      mmu.TablesAgree();
      var reqBytes := processes[i].ctx.regs[processes[i].ctx.trapRegA];
      PlanForm(Vm(), i, reqBytes);
      var pagesNeeded := PagesNeeded(reqBytes);
      if reqBytes <= 0 || pagesNeeded > HEAP_PAGES {
        Answer(i, 0);
        return true;
      }
      GrownCanTake(Vm(), i, HEAP_LAST + 1);
      mmu.Resize(i, HEAP_LAST + 1);
      mmu.TablesAgree();
      var run := FindRun(i, pagesNeeded);
      if run.None? {
        Answer(i, 0);
        return true;
      }
      FirstFitInHeap(Vm(), i, pagesNeeded, HEAP_FIRST);
      ok := GrabRun(i, run.value, pagesNeeded);
      if !ok { return; }
      var addr := run.value * PAGE_SIZE;
      var p := processes[i].(heapAllocations := Record(processes[i].heapAllocations, addr, pagesNeeded));
      ChangedPcb(processes, i, p);
      processes := processes[i := p];
      Answer(i, addr);
    }

    /** p.pcb.regs[r] = v */
    method SetRegister(i: nat, r: nat, v: int)
      requires Valid() && i < |processes| && r < 16
      modifies this`processes
      ensures Valid() && Vm() == old(Vm()) && Sched() == old(Sched())
      ensures Contexts(processes) == old(Contexts(processes))[i := P.SetReg(old(processes[i].ctx), r, v)]
    {
      hide Mmu.Valid, S.Sized, Shape;
      var p := processes[i].(ctx := P.SetReg(processes[i].ctx, r, v));
      ChangedPcb(processes, i, p);
      processes := processes[i := p];
    }

    method Answer(i: nat, addr: nat)
      requires Valid() && i < |processes| && P.IsReg(processes[i].ctx.trapRegB)
      modifies this`processes, this`ready
      ensures Valid() && Answered(old(Vm()), old(Sched()), old(Contexts(processes)), i, (old(Vm()), addr))
    {
      hide Mmu.Valid, S.Enqueue;
      SetRegister(i, processes[i].ctx.trapRegB, addr);
      EnqueueReady(i);
    }

    /** The allocation loop. */
    method GrabRun(i: nat, start: nat, n: nat) returns (ok: bool)
      requires Valid() && i < |processes| && start + n <= |mmu.tables[i]| && SharedInUse(Vm()) && n > 0
      modifies this`disk, this`physPageOwner, mmu, mmu.physMem, mmu.physUsed
      ensures Valid() && Sched() == old(Sched()) && Contexts(processes) == old(Contexts(processes))
      ensures ok == CanTake(old(Vm())) && (ok ==> Vm() == GrabRange(old(Vm()), i, start, n))
      ensures mmu.active == old(mmu.active) && mmu.codeSize == old(mmu.codeSize)
    {
      hide Linked, Lru.Replay, S.Sized, Grab, HasFree, CanTake, Mmu.Valid;
      mmu.TablesAgree();
      var k := 0;
      ok := true;
      while k < n
        invariant 0 <= k <= n && Valid() && Sched() == old(Sched()) && Contexts(processes) == old(Contexts(processes))
        invariant mmu.tables == mmu.mem.tables && SharedInUse(Vm()) && processes == old(processes)
        invariant k > 0 ==> CanTake(old(Vm()))
        invariant Vm() == if k == 0 then old(Vm()) else GrabRange(old(Vm()), i, start, k)
        invariant mmu.active == old(mmu.active) && mmu.codeSize == old(mmu.codeSize)
      {
        ok := GrabPage(i, start + k);
        mmu.TablesAgree();
        if !ok { return; }
        GrabKeepsShared(old(Vm()), i, start, k + 1);
        k := k + 1;
      }
    }

    /** The allocation result goes to the process's register and the process to its ready queue. */
    ghost predicate Answered(vm: Paging.Vm, s: S.Sched, cs: seq<P.Ctx>, i: nat, result: (Paging.Vm, nat))
      reads this, mmu
      requires i < |cs| && P.CtxOk(cs[i]) && P.IsReg(cs[i].trapRegB) && S.Sized(s) && i < |s.tasks|
    {
      && Vm() == result.0 && Sched() == S.Enqueue(s, i)
      && Contexts(processes) == cs[i := P.SetReg(cs[i], cs[i].trapRegB, result.1)]
    }

    /** One page of handleFreeMemory_. */
    method ReleasePage(i: nat, vp: nat)
      requires Valid() && i < |processes|
      modifies this`disk, this`physPageOwner, mmu, mmu.physUsed
      ensures Valid() && Sched() == old(Sched()) && Contexts(processes) == old(Contexts(processes))
      ensures Vm() == Release(old(Vm()), i, vp)
      ensures mmu.active == old(mmu.active) && mmu.codeSize == old(mmu.codeSize)
    {
      hide Linked, Lru.Replay, S.Sized, Mmu.Valid, FreeFrame;
      mmu.TablesAgree();
      if vp >= |mmu.tables[i]| { return; }
      var entry := mmu.tables[i][vp];
      if entry.isValid && entry.physPage != UNMAPPED {
        var freed := mmu.FreePhysPage(entry.physPage);
        if freed { physPageOwner := physPageOwner - {entry.physPage}; }
      }
      mmu.TablesAgree();
      disk := disk - {Key(processes[i].pid, vp)};
      mmu.SetEntry(i, vp, EMPTY_ENTRY);
    }

    method HandleFreeMemory(i: nat)
      requires Valid() && i < |processes| && P.IsReg(processes[i].ctx.trapRegA)
      modifies this`processes, this`ready, this`disk, this`physPageOwner, mmu, mmu.physUsed
      ensures Valid() && Contexts(processes) == old(Contexts(processes))
      ensures var c := old(processes[i].ctx); Vm() == Free(old(Vm()), i, ToWord(c.regs[c.trapRegA]))
      ensures Sched() == S.Enqueue(old(Sched()), i)
      ensures mmu.active == old(mmu.active) && mmu.codeSize == old(mmu.codeSize)
    {
      hide Linked, Lru.Replay, S.Sized, S.Enqueue, Mmu.Valid, Release;
      var vaddr := ToWord(processes[i].ctx.regs[processes[i].ctx.trapRegA]);
      var heap := processes[i].heapAllocations;
      if vaddr !in heap {
        EnqueueReady(i);
        return;
      }
      var pagesFreed, firstVPage, k := heap[vaddr], vaddr / PAGE_SIZE, 0;
      while k < pagesFreed
        invariant 0 <= k <= pagesFreed && Valid() && Sched() == old(Sched()) && processes == old(processes)
        invariant Vm() == ReleaseRange(old(Vm()), i, firstVPage, k)
        invariant mmu.active == old(mmu.active) && mmu.codeSize == old(mmu.codeSize)
      {
        ReleasePage(i, firstVPage + k);
        k := k + 1;
      }
      var p := processes[i].(heapAllocations := heap - {vaddr});
      ChangedPcb(processes, i, p);
      processes := processes[i := p];
      EnqueueReady(i);
    }

    // ---- Locks, events, sleep (OS.cpp:107-201) --------------------------------------------------------------

    method HandOverLock(l: nat)
      requires Valid() && l < S.NUM_LOCKS && S.Below(locks[l].waitQueue, |processes|)
      modifies this`processes, this`ready, this`locks, this`grants
      ensures Valid() && Vm() == old(Vm()) && Sched() == S.HandOver(old(Sched()), l)
      ensures Contexts(processes) == old(Contexts(processes))
    {
      hide Mmu.Valid, S.Enqueue;
      if locks[l].waitQueue != [] {
        var nextIdx := locks[l].waitQueue[0];
        grants := grants[l := grants[l] + [nextIdx]];
        locks := locks[l := S.Lock(locks[l].held, processes[nextIdx].pid, locks[l].waitQueue[1..])];
        EnqueueReady(nextIdx);
      } else {
        locks := locks[l := S.Lock(false, 0, [])];
      }
    }

    method AcquireLock(i: nat, id: int)
      requires Valid() && i < |processes|
      modifies this`processes, this`ready, this`locks, this`requests, this`grants
      ensures Valid() && Vm() == old(Vm()) && Sched() == S.Acquire(old(Sched()), i, id)
      ensures Contexts(processes) == old(Contexts(processes))
    {
      hide Mmu.Valid, S.Enqueue;
      var lockId := ToInt32(id);
      if lockId < 0 || lockId >= S.NUM_LOCKS {
        EnqueueReady(i);
        return;
      }
      requests := requests[lockId := requests[lockId] + [i]];
      if !locks[lockId].held {
        grants := grants[lockId := grants[lockId] + [i]];
        locks := locks[lockId := locks[lockId].(held := true, ownerPid := processes[i].pid)];
        EnqueueReady(i);
      } else {
        var p := processes[i].(state := S.WaitingLock, waitingLockId := lockId);
        ChangedPcb(processes, i, p);
        processes := processes[i := p];
        locks := locks[lockId := locks[lockId].(waitQueue := locks[lockId].waitQueue + [i])];
      }
    }

    method ReleaseLock(i: nat, id: int)
      requires Valid() && i < |processes| && S.QueuesOk(Sched())
      modifies this`processes, this`ready, this`locks, this`grants
      ensures Valid() && Vm() == old(Vm()) && Sched() == S.Release(old(Sched()), i, id)
      ensures Contexts(processes) == old(Contexts(processes))
    {
      hide Mmu.Valid, S.Enqueue, S.HandOver;
      var lockId := ToInt32(id);
      if 0 <= lockId < S.NUM_LOCKS && locks[lockId].held && locks[lockId].ownerPid == processes[i].pid {
        HandOverLock(lockId);
      }
      EnqueueReady(i);
    }

    method WaitEvent(i: nat, id: int)
      requires Valid() && i < |processes|
      modifies this`processes, this`ready, this`events
      ensures Valid() && Vm() == old(Vm()) && Sched() == S.Wait(old(Sched()), i, id)
      ensures Contexts(processes) == old(Contexts(processes))
    {
      hide Mmu.Valid, S.Enqueue;
      var eventId := ToInt32(id);
      if eventId < 0 || eventId >= S.NUM_EVENTS {
        EnqueueReady(i);
      } else if events[eventId].signaled {
        events := events[eventId := events[eventId].(signaled := false)];
        EnqueueReady(i);
      } else {
        var p := processes[i].(state := S.WaitingEvent, waitingEventId := eventId);
        ChangedPcb(processes, i, p);
        processes := processes[i := p];
        events := events[eventId := events[eventId].(waitQueue := events[eventId].waitQueue + [i])];
      }
    }

    method WakeAll(e: nat)
      requires Valid() && e < S.NUM_EVENTS && S.Below(events[e].waitQueue, |processes|)
      modifies this`processes, this`ready, this`events
      ensures Valid() && Vm() == old(Vm()) && Sched() == S.WakeAll(old(Sched()), e)
      ensures Contexts(processes) == old(Contexts(processes))
    {
      hide Mmu.Valid, S.Enqueue;
      while events[e].waitQueue != []
        invariant Valid() && Vm() == old(Vm()) && S.Below(events[e].waitQueue, |processes|)
        invariant Contexts(processes) == old(Contexts(processes))
        invariant S.WakeAll(Sched(), e) == S.WakeAll(old(Sched()), e)
        decreases |events[e].waitQueue|
      {
        var waitIdx := events[e].waitQueue[0];
        events := events[e := events[e].(waitQueue := events[e].waitQueue[1..])];
        EnqueueReady(waitIdx);
      }
    }

    method SignalEvent(i: nat, id: int)
      requires Valid() && i < |processes| && S.QueuesOk(Sched())
      modifies this`processes, this`ready, this`events
      ensures Valid() && Vm() == old(Vm()) && Sched() == S.Signal(old(Sched()), i, id)
      ensures Contexts(processes) == old(Contexts(processes))
    {
      hide Mmu.Valid, S.Enqueue, S.WakeAll;
      var eventId := ToInt32(id);
      if 0 <= eventId < S.NUM_EVENTS {
        if events[eventId].waitQueue != [] {
          WakeAll(eventId);
        } else {
          events := events[eventId := events[eventId].(signaled := true)];
        }
      }
      EnqueueReady(i);
    }

    method GoToSleep(i: nat, count: int)
      requires Valid() && i < |processes|
      modifies this`processes, this`sleeping
      ensures Valid() && Vm() == old(Vm()) && Sched() == S.GoToSleep(old(Sched()), i, count)
      ensures Contexts(processes) == old(Contexts(processes))
    {
      hide Mmu.Valid;
      var p := processes[i].(state := S.WaitingSleep, sleepCounter := if count <= 0 then 1 else ToWord(count));
      ChangedPcb(processes, i, p);
      processes := processes[i := p];
      sleeping := sleeping + [i];
    }

    // ---- Exit (OS.cpp:317-351) ------------------------------------------------------------------------------

    /** Free every frame this pid owns, erasing from the owner map while going through it. */
    method FreeOwnedFrames(pid: nat)
      requires Valid() && forall f | f in physPageOwner :: f < |mmu.mem.frames|
      modifies this`physPageOwner, mmu, mmu.physUsed
      ensures Valid() && Sched() == old(Sched()) && mmu.active == old(mmu.active) && mmu.codeSize == old(mmu.codeSize)
      ensures Vm() == Freed(old(Vm()), FramesOf(old(Vm()), pid))
    {
      hide Linked, Lru.Replay, S.Sized, Mmu.Valid, FreeFrame, Freed, Wf, Without, NoDup;
      mmu.TablesAgree();
      ghost var vm := Vm();
      FreedNone(vm);
      ghost var gone: set<nat> := {};
      var todo := physPageOwner.Keys;
      while todo != {}
        invariant Valid() && Sched() == old(Sched()) && mmu.active == old(mmu.active) && mmu.codeSize == old(mmu.codeSize)
        invariant todo <= vm.owner.Keys && gone == FramesOf(vm, pid) - todo
        invariant forall f | f in vm.owner :: f < |vm.mem.used|
        invariant Shape(vm) && Vm() == Freed(vm, gone)
        decreases |todo|
      {
        var f :| f in todo;
        todo := todo - {f};
        FreedOwner(vm, gone, f);
        if physPageOwner[f].pid == pid {
          FreedMore(vm, gone, f);
          var freed := mmu.FreePhysPage(f);
          physPageOwner := physPageOwner - {f};
          gone := gone + {f};
        }
      }
      assert gone == FramesOf(vm, pid);
    }

    /** Discard the saved pages of this pid. */
    method EraseSaved(pid: nat)
      requires Valid()
      modifies this`disk
      ensures Valid() && Sched() == old(Sched())
      ensures Vm() == old(Vm()).(disk := old(disk) - (set k | k in old(disk) && k.pid == pid))
    {
      hide Mmu.Valid, S.Sized, Kept;
      ghost var all := disk;
      KeptAll(all, pid);
      var todo := disk.Keys;
      while todo != {}
        invariant todo <= all.Keys && disk == Kept(all, pid, todo)
        decreases |todo|
      {
        var k :| k in todo;
        KeptLess(all, pid, todo, k);
        todo := todo - {k};
        if k.pid == pid { disk := disk - {k}; }
      }
      KeptNone(all, pid);
    }

    /** Frames, saved pages and page table of process i. */
    method ReleaseMemory(i: nat)
      requires Valid() && i < |processes| && forall f | f in physPageOwner :: f < |mmu.mem.frames|
      modifies this`disk, this`physPageOwner, mmu, mmu.physUsed
      ensures Valid() && Sched() == old(Sched()) && mmu.active == old(mmu.active) && mmu.codeSize == old(mmu.codeSize)
      ensures Vm() == Cleanup(old(Vm()), i).(heaps := old(Vm()).heaps)
    {
      hide Linked, Lru.Replay, S.Sized, Mmu.Valid, Cleanup, Freed, FramesOf;
      var pid := processes[i].pid;
      mmu.TablesAgree();
      FreeOwnedFrames(pid);
      EraseSaved(pid);
      mmu.TablesAgree();
      FreedTables(old(Vm()), FramesOf(old(Vm()), pid));
      mmu.ClearTable(i);
      CleanupSteps(old(Vm()), i, Vm());
    }

    method CleanupProcess(i: nat)
      requires Valid() && i < |processes| && S.QueuesOk(Sched())
      requires forall f | f in physPageOwner :: f < |mmu.mem.frames|
      modifies this`processes, this`ready, this`locks, this`grants, this`disk, this`physPageOwner, mmu, mmu.physUsed
      ensures Valid() && Vm() == Cleanup(old(Vm()), i) && Sched() == S.Terminate(old(Sched()), i)
      ensures Contexts(processes) == old(Contexts(processes))
      ensures mmu.active == old(mmu.active) && mmu.codeSize == old(mmu.codeSize)
    {
      hide Mmu.Valid, FramesOf, S.ReleaseHeld, Without, NoDup;
      ReleaseMemory(i);
      var p := processes[i].(heapAllocations := map[], state := S.Terminated);
      ChangedPcb(processes, i, p);
      processes := processes[i := p];
      ReleaseLocks(processes[i].pid);
    }

    /** Hand over or free every lock of this pid. */
    method ReleaseLocks(pid: nat)
      requires Valid() && S.QueuesOk(Sched())
      modifies this`processes, this`ready, this`locks, this`grants
      ensures Valid() && Vm() == old(Vm()) && Sched() == S.ReleaseHeld(old(Sched()), pid, S.NUM_LOCKS)
      ensures Contexts(processes) == old(Contexts(processes))
    {
      hide Mmu.Valid, S.Enqueue, S.HandOver;
      var l := 0;
      while l < S.NUM_LOCKS
        invariant 0 <= l <= S.NUM_LOCKS && Valid() && Vm() == old(Vm()) && S.QueuesOk(Sched())
        invariant Sched() == S.ReleaseHeld(old(Sched()), pid, l)
        invariant Contexts(processes) == old(Contexts(processes))
      {
        if locks[l].held && locks[l].ownerPid == pid { HandOverLock(l); }
        l := l + 1;
      }
    }

    // ---- The loop body of run() (OS.cpp:82-229) -------------------------------------------------------------

    ghost function Model(): K.Os
      reads this, mmu
    {
      K.Os(Vm(), Sched(), Contexts(processes))
    }

    /** Map a shared region; its frame gets no owner. */
    method MapRegion(i: nat, region: nat) returns (vaddr: nat)
      requires Valid() && i < |processes| && region < |sharedPhysPages|
      modifies mmu`tables, mmu`mem
      ensures Valid() && Vm() == MapShared(old(Vm()), i, region) && Sched() == old(Sched())
      ensures vaddr == (SHARED_PAGE + region) * PAGE_SIZE
    {
      hide Mmu.Valid, S.Sized;
      mmu.TablesAgree();
      vaddr := mmu.MapPageInto(i, SHARED_PAGE + region, sharedPhysPages[region]);
    }

    method MapSharedMem(i: nat)
      requires Valid() && i < |processes| && K.TrapOk(processes[i].ctx, P.Trapped(P.Trap.MapSharedMem))
      modifies this`processes, this`ready, mmu
      ensures Valid()
      ensures var c := old(processes[i].ctx); var region := ToInt32(c.regs[1]);
        if 0 <= region < |sharedPhysPages| then
          && Vm() == MapShared(old(Vm()), i, region)
          && Contexts(processes) == old(Contexts(processes))[i := P.SetReg(c, ToInt32(c.regs[15]), (SHARED_PAGE + region) * PAGE_SIZE)]
        else Vm() == old(Vm()) && Contexts(processes) == old(Contexts(processes))
      ensures Sched() == S.Enqueue(old(Sched()), i)
    {
      hide Mmu.Valid, S.Enqueue, S.Sized, MapShared, Shape, ToInt32, InSharedWindow;
      var c := processes[i].ctx;
      var regionId, retReg := ToInt32(c.regs[1]), ToInt32(c.regs[15]);
      if 0 <= regionId < |sharedPhysPages| {
        var vaddr := MapRegion(i, regionId);
        SetRegister(i, retReg, vaddr);
      }
      EnqueueReady(i);
    }

    /** A process waiting for input is put straight back into its ready queue. */
    method AwaitInput(i: nat)
      requires Valid() && i < |processes|
      modifies this`processes, this`ready
      ensures Valid() && Vm() == old(Vm()) && Sched() == S.Enqueue(old(Sched()), i)
      ensures Contexts(processes) == old(Contexts(processes))
    {
      hide Mmu.Valid;
      var p := processes[i].(state := S.WaitingIO);
      ChangedPcb(processes, i, p);
      processes := processes[i := p];
      EnqueueReady(i);
    }

    /** Traps that concern the queues only. */
    method ServeQueues(i: nat, t: P.Trap)
      requires Valid() && i < |processes| && S.QueuesOk(Sched()) && P.CtxOk(processes[i].ctx) && QueueTrap(t)
      modifies this`processes, this`ready, this`sleeping, this`locks, this`events, this`requests, this`grants
      ensures Valid() && Vm() == old(Vm()) && Contexts(processes) == old(Contexts(processes))
      ensures Sched() == S.Handle(old(Sched()), i, K.StopOf(old(processes[i].ctx), P.Trapped(t)))
    {
      hide Mmu.Valid, S.Enqueue, S.Sized, S.Acquire, S.Release, S.Wait, S.Signal, S.GoToSleep, S.QueuesOk;
      var c := processes[i].ctx;
      match t
      case Sleep => GoToSleep(i, c.regs[1]);
      case Input => AwaitInput(i);
      case Inputc => AwaitInput(i);
      case AcquireLock => AcquireLock(i, c.regs[1]);
      case ReleaseLock => ReleaseLock(i, c.regs[1]);
      case WaitEvent => WaitEvent(i, c.regs[1]);
      case SignalEvent => SignalEvent(i, c.regs[1]);
      case QuantumExpired => EnqueueReady(i);
    }

    /** Traps that change memory or page tables. */
    method ServeMemory(i: nat, t: P.Trap)
      requires Valid() && i < |processes| && FrameInvariant.Inv(Vm()) && CanTake(Vm()) && S.QueuesOk(Sched())
      requires K.TrapOk(processes[i].ctx, P.Trapped(t)) && !QueueTrap(t) && !t.Exit?
      modifies this`processes, this`ready, this`disk, this`physPageOwner, mmu, mmu.physMem, mmu.physUsed
      ensures Valid() && Sched() == S.Enqueue(old(Sched()), i)
      ensures var c, o := old(processes[i].ctx), P.Trapped(t);
        && Vm() == K.Served(old(Vm()), i, c, o)
        && Contexts(processes) == old(Contexts(processes))[i := K.Answered(old(Vm()), i, c, o)]
    {
      hide Mmu.Valid, S.Enqueue, S.Sized, CanTake, FrameInvariant.Inv, Alloc, Free, MapShared, S.QueuesOk,
           AllocPlan, P.IsReg, SharedInUse, ToInt32, ToWord, K.Served, K.Answered, Shape;
      OwnersInRange(Vm());
      MemoryForms(Vm(), i, processes[i].ctx, t);
      ghost var c := processes[i].ctx;
      assert Contexts(processes)[i := c] == Contexts(processes);
      if t.MapSharedMem? {
        MapSharedMem(i);
      } else if t.Alloc? {
        var ok := HandleAlloc(i);
      } else {
        HandleFreeMemory(i);
      }
    }

    /** The switch over what stopped the CPU, and the two catch clauses. */
    method Serve(i: nat, o: P.Outcome)
      requires Valid() && i < |processes| && FrameInvariant.Inv(Vm()) && CanTake(Vm()) && S.QueuesOk(Sched())
      requires K.TrapOk(processes[i].ctx, o)
      modifies this`processes, this`ready, this`sleeping, this`locks, this`events, this`disk, this`physPageOwner
      modifies this`requests, this`grants, mmu, mmu.physMem, mmu.physUsed
      ensures Valid()
      ensures var c := old(processes[i].ctx);
        && Vm() == K.Served(old(Vm()), i, c, o)
        && Sched() == S.Handle(old(Sched()), i, K.StopOf(c, o))
        && Contexts(processes) == old(Contexts(processes))[i := K.Answered(old(Vm()), i, c, o)]
    {
      hide Mmu.Valid, S.Enqueue, S.Sized, CanTake, FrameInvariant.Inv, PageIn, Cleanup, S.QueuesOk, SharedInUse,
           K.Served, K.Answered, S.Terminate, K.TrapOk;
      OwnersInRange(Vm());
      ServiceForms(Vm(), i, processes[i].ctx, o);
      ghost var c := processes[i].ctx;
      assert Contexts(processes)[i := c] == Contexts(processes);
      if o.Faulted? {
        var ok := HandlePageFault(i, o.vpage);
      } else if o == P.Crashed || o == P.Trapped(P.Trap.Exit) {
        CleanupProcess(i);
      } else if o == P.Continue {
        EnqueueReady(i);
      } else if QueueTrap(o.trap) {
        ServeQueues(i, o.trap);
      } else {
        ServeMemory(i, o.trap);
      }
    }

    /** Context switch in, a quantum, context switch out, and the service. */
    method Dispatch(i: nat)
      requires Valid() && i < |processes| && S.QueuesOk(Sched())
      requires FrameInvariant.Inv(Vm()) && FrameInvariant.Roomy(Vm()) && Live(Vm(), i)
      modifies this`processes, this`ready, this`sleeping, this`locks, this`events, this`disk, this`physPageOwner
      modifies this`requests, this`grants, mmu, mmu.physMem, mmu.physUsed, cpu, cpu.regs
      ensures Valid() && K.Dispatch(old(Model()), i) == K.Next(Model())
    {
      hide Mmu.Valid, S.Sized, CanTake, FrameInvariant.Inv, FrameInvariant.Roomy, P.RunSteps, K.Served, K.Answered,
           K.StopOf, S.Handle, S.QueuesOk, Linked;
      mmu.TablesAgree();
      KR.RanKeepsInv(Vm(), i, processes[i].ctx);
      mmu.SetActive(i, processes[i].codeSize);
      cpu.LoadFrom(processes[i].ctx);
      var o := cpu.Run(K.QUANTUM);
      var c := cpu.SaveTo();
      ChangedPcb(processes, i, processes[i].(ctx := c));
      processes := processes[i := processes[i].(ctx := c)];
      Serve(i, o);
      assert old(Contexts(processes))[i := c][i := Contexts(processes)[i]] == old(Contexts(processes))[i := Contexts(processes)[i]];
    }

    /** One turn of the loop of run(); true when run() returns. */
    method Turn() returns (done: bool)
      requires Valid() && K.OsInv(Model())
      modifies this`processes, this`ready, this`sleeping, this`locks, this`events, this`disk, this`physPageOwner
      modifies this`requests, this`grants, mmu, mmu.physMem, mmu.physUsed, cpu, cpu.regs
      ensures Valid() && K.OsInv(Model())
      ensures K.Turn(old(Model())) == if done then K.Returned(Model()) else K.Next(Model())
      ensures done ==> SR.Finished(Sched())
    {
      hide Mmu.Valid, S.Sized, K.OsInv, K.Dispatch, S.Tick, S.PickNext, FrameInvariant.Inv, FrameInvariant.Roomy,
           S.QueuesOk, SI.SchedInv, SI.Serving, Live, SR.Finished;
      ghost var os := Model();
      TurnParts(os);
      System.TurnKeepsInv(os);
      TickSleepers();
      var next := PickNextReady();
      if next.None? {
        done := sleeping == [];
        return;
      }
      var i := next.value;
      TurnDispatches(os, i);
      if processes[i].state == S.Terminated { return false; }
      SwitchTo(i);
      done := false;
    }

    /** The state of contextSwitchTo_, then the dispatch. */
    method SwitchTo(i: nat)
      requires Valid() && i < |processes| && S.QueuesOk(S.SetState(Sched(), i, S.Running))
      requires FrameInvariant.Inv(Vm()) && FrameInvariant.Roomy(Vm()) && Live(Vm(), i)
      modifies this`processes, this`ready, this`sleeping, this`locks, this`events, this`disk, this`physPageOwner
      modifies this`requests, this`grants, mmu, mmu.physMem, mmu.physUsed, cpu, cpu.regs
      ensures Valid()
      ensures var os := old(Model()); K.Dispatch(os.(sched := S.SetState(os.sched, i, S.Running)), i) == K.Next(Model())
    {
      hide Mmu.Valid, K.Dispatch, FrameInvariant.Inv, FrameInvariant.Roomy, S.QueuesOk, Live;
      var p := processes[i].(state := S.Running);
      ChangedPcb(processes, i, p);
      processes := processes[i := p];
      Dispatch(i);
    }

    /** run(), for at most this many turns; true when it returned by itself. */
    method Run(turns: nat) returns (done: bool)
      requires Valid() && K.OsInv(Model())
      modifies this`processes, this`ready, this`sleeping, this`locks, this`events, this`disk, this`physPageOwner
      modifies this`requests, this`grants, mmu, mmu.physMem, mmu.physUsed, cpu, cpu.regs
      ensures Valid() && K.OsInv(Model()) && (done ==> SR.Finished(Sched()))
      ensures (Model(), done) == System.Turns(old(Model()), turns)
    {
      hide Mmu.Valid, K.OsInv, K.Turn, SR.Finished;
      done := false;
      var k := 0;
      ghost var os := Model();
      while k < turns && !done
        invariant 0 <= k <= turns && Valid() && K.OsInv(Model()) && (done ==> SR.Finished(Sched()))
        invariant (Model(), done) == System.Turns(os, k)
        decreases turns - k
      {
        done := Turn();
        k := k + 1;
      }
      if done { System.TurnsStop(os, k, turns); }
    }

    // ---- Process creation (OS.cpp:11-66) --------------------------------------------------------------------

    /** The record of a new process and its empty page table. */
    method AppendProcess(codeSize: nat, priority: nat)
      requires Valid()
      modifies this`processes, this`nextPid, mmu`tables, mmu`mem
      ensures Valid() && Vm() == AddProcess(old(Vm()), codeSize)
      ensures Sched() == old(Sched()).(tasks := old(Sched()).tasks + [S.Task(old(nextPid), priority, S.Ready, 0, -1, -1)])
      ensures Contexts(processes) == old(Contexts(processes)) + [System.InitialCtx()]
      ensures |processes| == |old(processes)| + 1 && processes[|old(processes)|].codeSize == codeSize
    {
      hide Mmu.Valid;
      mmu.TablesAgree();
      var p := Pcb(nextPid, priority, S.Ready, 0, -1, -1, System.InitialCtx(), codeSize, map[]);
      AppendedPcb(processes, p);
      nextPid := nextPid + 1;
      mmu.AddTable(TABLE_PAGES);
      processes := processes + [p];
    }

    /** A creation that failed leaves no record behind. */
    method DropProcess()
      requires Valid() && |processes| > 0
      modifies this`processes, mmu`tables, mmu`mem
      ensures Valid() && Vm() == DropLast(old(Vm()))
      ensures Sched() == old(Sched()).(tasks := old(Sched()).tasks[..|old(processes)| - 1])
      ensures Contexts(processes) == old(Contexts(processes))[..|old(processes)| - 1]
    {
      hide Mmu.Valid;
      mmu.TablesAgree();
      DroppedPcb(processes);
      mmu.DropTable();
      processes := processes[..|processes| - 1];
    }

    /** A frame for one code page. */
    method MapCodePage(i: nat, vp: nat) returns (ok: bool)
      requires Valid() && i < |processes| && vp < |mmu.tables[i]|
      modifies this`physPageOwner, mmu, mmu.physMem, mmu.physUsed
      ensures Valid() && Sched() == old(Sched()) && (Vm(), ok) == LoadOne(old(Vm()), i, vp)
    {
      hide Linked, Lru.Replay, Mmu.Valid, S.Sized, HasFree, Lru.Touch;
      mmu.TablesAgree();
      var pp := mmu.AllocPhysPage();
      mmu.TablesAgree();
      if pp.None? { return false; }
      mmu.SetEntry(i, vp, PageEntry(pp.value, true, false));
      mmu.TablesAgree();
      physPageOwner := physPageOwner[pp.value := Key(processes[i].pid, vp)];
      ok := true;
    }

    /** Frames for the code pages; false when memory runs out. */
    method MapCode(i: nat, n: nat) returns (ok: bool)
      requires Valid() && i < |processes| && CODE_PAGE + n <= |mmu.tables[i]|
      modifies this`physPageOwner, mmu, mmu.physMem, mmu.physUsed
      ensures Valid() && Sched() == old(Sched())
      ensures (Vm(), ok) == LoadPages(old(Vm()), i, CODE_PAGE, n)
    {
      hide Linked, Lru.Replay, Mmu.Valid, S.Sized, LoadOne;
      mmu.TablesAgree();
      ghost var vm := Vm();
      var k := 0;
      while k < n
        invariant 0 <= k <= n && Valid() && Sched() == old(Sched()) && processes == old(processes)
        invariant Shape(vm) && (Vm(), true) == LoadPages(vm, i, CODE_PAGE, k)
        invariant mmu.tables == mmu.mem.tables
      {
        LoadNext(vm, i, CODE_PAGE, k + 1);
        ok := MapCodePage(i, CODE_PAGE + k);
        mmu.TablesAgree();
        k := k + 1;
        if !ok {
          LoadStops(vm, i, CODE_PAGE, k, n);
          return;
        }
      }
      ok := true;
    }

    /** loadProcessImage_; false when it throws. */
    method LoadProcessImage(i: nat, prog: Program) returns (ok: bool)
      requires Valid() && i < |processes| && |mmu.tables[i]| == TABLE_PAGES && |prog.bytes| <= 0xE000
      requires processes[i].codeSize == |prog.bytes|
      modifies this`physPageOwner, mmu, mmu.physMem, mmu.physUsed
      ensures Valid() && Sched() == old(Sched())
      ensures (Vm(), ok) == Loaded(old(Vm()), i, prog.bytes)
    {
      hide Linked, Lru.Replay, Mmu.Valid, S.Sized, LoadPages, WriteCode;
      if prog.SizeBytes() == 0 { return false; }
      var n := (CODE_BASE + prog.SizeBytes() - 1) / PAGE_SIZE - CODE_PAGE + 1;
      ok := MapCode(i, n);
      if !ok { return; }
      mmu.TablesAgree();
      mmu.SetActive(i, processes[i].codeSize);
      var r := prog.LoadIntoMemory(mmu);
      mmu.TablesAgree();
      ok := r.Ok?;
    }

    /** createProcessFromAsm on an assembled program; false when it throws. */
    method CreateProcess(prog: Program, priority: nat) returns (ok: bool)
      requires Valid() && |prog.bytes| <= 0xE000
      modifies this`processes, this`nextPid, this`ready, this`physPageOwner, mmu, mmu.physMem, mmu.physUsed
      ensures Valid() && (Vm(), ok) == Create(old(Vm()), prog.bytes)
      ensures Sched() == if ok then S.Admit(old(Sched()), old(nextPid), priority) else old(Sched())
      ensures Contexts(processes) == old(Contexts(processes)) + if ok then [System.InitialCtx()] else []
      ensures K.OsInv(old(Model())) ==>
                K.OsInv(Model()) && Model() == System.CreateProcess(old(Model()), prog.bytes, priority)
    {
      hide Linked, Mmu.Valid, S.Sized, Create, Loaded, AddProcess, DropLast, S.Enqueue, K.OsInv;
      ghost var os := Model();
      mmu.TablesAgree();
      var i := |processes|;
      CreateSteps(Vm(), prog.bytes);
      AppendProcess(prog.SizeBytes(), priority);
      mmu.TablesAgree();
      ok := LoadProcessImage(i, prog);
      if ok {
        EnqueueReady(i);
      } else {
        DropProcess();
      }
      if K.OsInv(os) {
        System.CreateProcessInv(os, prog.bytes, priority);
        CreatedModel(os, prog.bytes, priority);
      }
    }
  }

  lemma CreatedModel(os: K.Os, code: seq<Byte>, priority: nat)
    requires K.OsInv(os) && |code| <= 0xE000
    ensures Shape(os.vm) && S.Sized(os.sched)
    ensures System.CreateProcess(os, code, priority) ==
            if Create(os.vm, code).1
            then K.Os(Create(os.vm, code).0, S.Admit(os.sched, os.vm.nextPid, priority), os.ctxs + [System.InitialCtx()])
            else os.(vm := Create(os.vm, code).0)
  {
    hide Create, S.Admit;
  }

  lemma AppendedPcb(ps: seq<Pcb>, p: Pcb)
    ensures Pids(ps + [p]) == Pids(ps) + [p.pid] && Sizes(ps + [p]) == Sizes(ps) + [p.codeSize]
    ensures Heaps(ps + [p]) == Heaps(ps) + [p.heapAllocations] && Tasks(ps + [p]) == Tasks(ps) + [TaskOf(p)]
    ensures Contexts(ps + [p]) == Contexts(ps) + [p.ctx]
  {}

  lemma DroppedPcb(ps: seq<Pcb>)
    requires |ps| > 0
    ensures var n := |ps| - 1;
      && Pids(ps[..n]) == Pids(ps)[..n] && Sizes(ps[..n]) == Sizes(ps)[..n] && Heaps(ps[..n]) == Heaps(ps)[..n]
      && Tasks(ps[..n]) == Tasks(ps)[..n] && Contexts(ps[..n]) == Contexts(ps)[..n]
  {}

  /** Loading the image of process i into its pages. */
  ghost function Loaded(vm: Paging.Vm, i: nat, code: seq<Byte>): (r: (Paging.Vm, bool))
    requires Shape(vm) && i < |vm.pids| && |vm.mem.tables[i]| == TABLE_PAGES && |code| <= 0xE000
  {
    if |code| == 0 then (vm, false)
    else
      var (v, ok) := LoadPages(vm, i, CODE_PAGE, (CODE_BASE + |code| - 1) / PAGE_SIZE - CODE_PAGE + 1);
      if !ok then (v, false)
      else
        var w := WriteCode(v.mem, i, |code|, code, |code|);
        (v.(mem := w.mem), w.Done?)
  }

  /** Creation is: append the record, load the image, and drop the record again if that throws. */
  lemma CreateSteps(vm: Paging.Vm, code: seq<Byte>)
    requires Shape(vm) && |code| <= 0xE000
    ensures var vm1, i := AddProcess(vm, |code|), |vm.pids|;
      && Shape(vm1) && |vm1.mem.tables| == i + 1 && |vm1.mem.tables[i]| == TABLE_PAGES
      && var (v, ok) := Loaded(vm1, i, code);
         && Shape(v) && |v.pids| == i + 1
         && Create(vm, code) == (if ok then v else DropLast(v), ok)
  {
    hide LoadPages, WriteCode;
  }

  /** One turn of the loading loop. */
  ghost function LoadOne(vm: Paging.Vm, i: nat, vp: nat): (r: (Paging.Vm, bool))
    requires Shape(vm) && i < |vm.pids| && vp < |vm.mem.tables[i]|
  {
    if !HasFree(vm.mem) then (vm, false)
    else
      var p := FirstFree(vm.mem.used, 0);
      (vm.(mem := Memory.SetEntry(AllocFrame(vm.mem), i, vp, PageEntry(p, true, false)), owner := vm.owner[p := KeyOf(vm, i, vp)]), true)
  }

  lemma LoadNext(vm: Paging.Vm, i: nat, vp: nat, n: nat)
    requires Shape(vm) && i < |vm.pids| && 0 < n && vp + n <= |vm.mem.tables[i]| && LoadPages(vm, i, vp, n - 1).1
    ensures LoadPages(vm, i, vp, n) == LoadOne(LoadPages(vm, i, vp, n - 1).0, i, vp + n - 1)
  {}

  /** Once a code page finds no frame, no later one is tried. */
  lemma {:induction false} LoadStops(vm: Paging.Vm, i: nat, vp: nat, k: nat, n: nat)
    requires Shape(vm) && i < |vm.pids| && k <= n && vp + n <= |vm.mem.tables[i]| && !LoadPages(vm, i, vp, k).1
    ensures LoadPages(vm, i, vp, n) == LoadPages(vm, i, vp, k)
  {
    if k < n { LoadStops(vm, i, vp, k, n - 1); }
  }

  lemma TurnParts(os: K.Os)
    requires K.OsInv(os)
    ensures Shape(os.vm) && S.Sized(os.sched) && S.Below(os.sched.sleeping, |os.sched.tasks|)
    ensures K.Picked(os.sched) == S.PickNext(S.Tick(os.sched))
    ensures FrameInvariant.Inv(os.vm) && FrameInvariant.Roomy(os.vm)
    ensures K.Picked(os.sched).1.None? ==>
              K.Turn(os) == (if K.Picked(os.sched).0.sleeping == [] then K.Returned(os.(sched := K.Picked(os.sched).0))
                             else K.Next(os.(sched := K.Picked(os.sched).0)))
  {
    K.PickedServes(os.sched);
  }

  lemma TurnDispatches(os: K.Os, i: nat)
    requires K.OsInv(os) && K.Picked(os.sched).1 == Some(i)
    ensures var s := K.Picked(os.sched).0;
      && i < |s.tasks| && s.tasks[i].state != S.Terminated && Live(os.vm, i) && i < |os.vm.pids|
      && S.QueuesOk(S.SetState(s, i, S.Running))
      && Shape(os.vm) && S.Sized(s) && |os.vm.pids| == |s.tasks| == |os.ctxs| && P.CtxOk(os.ctxs[i])
      && K.Turn(os) == K.Dispatch(os.(sched := S.SetState(s, i, S.Running)), i)
  {
    hide K.Dispatch, SI.SchedInv, S.Tick;
    KR.PickedStatus(os.sched, i);
    assert K.Aligned(os, i);
  }

  /** What the services amount to that are not system calls on memory. */
  lemma ServiceForms(vm: Paging.Vm, i: nat, c: P.Ctx, o: P.Outcome)
    requires Shape(vm) && i < |vm.pids| && K.TrapOk(c, o) && CanTake(vm)
    ensures P.CtxOk(c)
    ensures o.Faulted? ==> K.Served(vm, i, c, o) == PageIn(vm, i, o.vpage)
    ensures o == P.Crashed || o == P.Trapped(P.Trap.Exit) ==> K.Served(vm, i, c, o) == Cleanup(vm, i) && K.StopOf(c, o).Exit?
    ensures o == P.Continue || (o.Trapped? && QueueTrap(o.trap)) ==> K.Served(vm, i, c, o) == vm
    ensures !o.Trapped? || QueueTrap(o.trap) || o.trap.Exit? ==> K.Answered(vm, i, c, o) == c
    ensures o.Faulted? || o == P.Continue || (o.Trapped? && !QueueTrap(o.trap) && !o.trap.Exit?) ==> K.StopOf(c, o).Yield?
  {
    hide PageIn, Cleanup, CanTake, Shape, Alloc, Free, MapShared, ToInt32;
  }

  lemma MemoryForms(vm: Paging.Vm, i: nat, c: P.Ctx, t: P.Trap)
    requires Shape(vm) && i < |vm.pids| && K.TrapOk(c, P.Trapped(t)) && CanTake(vm)
    ensures var o := P.Trapped(t);
      && (t.MapSharedMem? ==>
            var region := ToInt32(c.regs[1]);
            if 0 <= region < |vm.shared| then
              && K.Served(vm, i, c, o) == MapShared(vm, i, region)
              && K.Answered(vm, i, c, o) == P.SetReg(c, ToInt32(c.regs[15]), (SHARED_PAGE + region) * PAGE_SIZE)
            else K.Served(vm, i, c, o) == vm && K.Answered(vm, i, c, o) == c)
      && (t.Alloc? ==>
            && P.IsReg(c.trapRegA) && P.IsReg(c.trapRegB)
            && K.Served(vm, i, c, o) == Alloc(vm, i, c.regs[c.trapRegA]).0
            && K.Answered(vm, i, c, o) == P.SetReg(c, c.trapRegB, Alloc(vm, i, c.regs[c.trapRegA]).1))
      && (t.FreeMemory? ==>
            && P.IsReg(c.trapRegA) && K.Served(vm, i, c, o) == Free(vm, i, ToWord(c.regs[c.trapRegA]))
            && K.Answered(vm, i, c, o) == c)
  {
    hide CanTake, Shape, Alloc, Free, MapShared, ToInt32;
  }

  predicate QueueTrap(t: P.Trap) {
    !t.Exit? && !t.MapSharedMem? && !t.Alloc? && !t.FreeMemory?
  }

  lemma OwnersInRange(vm: Paging.Vm)
    requires FrameInvariant.Inv(vm) && CanTake(vm)
    ensures SharedInUse(vm) && forall f | f in vm.owner :: f < |vm.mem.frames|
  {}

  /** The saved pages left while those of this pid are erased, all but the ones still to be looked at. */
  ghost function Kept(all: map<Key, Page>, pid: nat, todo: set<Key>): map<Key, Page> {
    map k | k in all && (k.pid != pid || k in todo) :: all[k]
  }

  lemma KeptAll(all: map<Key, Page>, pid: nat)
    ensures Kept(all, pid, all.Keys) == all
  {}

  lemma KeptLess(all: map<Key, Page>, pid: nat, todo: set<Key>, k: Key)
    requires k in todo
    ensures Kept(all, pid, todo - {k}) == if k.pid == pid then Kept(all, pid, todo) - {k} else Kept(all, pid, todo)
  {}

  lemma KeptNone(all: map<Key, Page>, pid: nat)
    ensures Kept(all, pid, {}) == all - (set k | k in all && k.pid == pid)
  {}

  /** The state with these frames freed. */
  ghost function Freed(vm: Paging.Vm, gone: set<nat>): (r: Paging.Vm)
    requires Shape(vm)
    ensures Shape(r)
  {
    vm.(mem := vm.mem.(used := seq(|vm.mem.used|, f requires 0 <= f < |vm.mem.used| => vm.mem.used[f] && f !in gone),
                       lru := Without(vm.mem.lru, gone)),
        owner := vm.owner - gone)
  }

  lemma FreedNone(vm: Paging.Vm)
    requires Shape(vm)
    ensures Freed(vm, {}) == vm
  {
    WithoutNothing(vm.mem.lru, {});
    assert Freed(vm, {}).mem.used == vm.mem.used;
    assert vm.owner - {} == vm.owner;
  }

  lemma FreedOwner(vm: Paging.Vm, gone: set<nat>, f: nat)
    requires Shape(vm) && f in vm.owner && f !in gone
    ensures f in Freed(vm, gone).owner && Freed(vm, gone).owner[f] == vm.owner[f]
  {}

  lemma FreedMore(vm: Paging.Vm, gone: set<nat>, f: nat)
    requires Shape(vm) && f < |vm.mem.used|
    ensures var v, r := Freed(vm, gone), Freed(vm, gone + {f});
      f < |v.mem.used| && |v.mem.frames| == |vm.mem.frames| == |vm.mem.used|
      && r == v.(mem := FreeFrame(v.mem, f), owner := v.owner - {f})
  {
    WithoutTwice(vm.mem.lru, gone, {f});
    var v, r := Freed(vm, gone), Freed(vm, gone + {f});
    assert r.mem.used == FreeFrame(v.mem, f).used;
    assert r.owner == v.owner - {f};
  }

  lemma FreedTables(vm: Paging.Vm, gone: set<nat>)
    requires Shape(vm)
    ensures Freed(vm, gone).mem.tables == vm.mem.tables && Freed(vm, gone).disk == vm.disk
  {}

  /** Freeing the frames, erasing the saved pages and clearing the table is cleaning up all but the
      allocations. */
  lemma CleanupSteps(vm: Paging.Vm, i: nat, r: Paging.Vm)
    requires Shape(vm) && i < |vm.pids|
    requires var v := Freed(vm, FramesOf(vm, vm.pids[i]));
      r == v.(mem := v.mem.(tables := v.mem.tables[i := []]),
              disk := vm.disk - (set k | k in vm.disk && k.pid == vm.pids[i]))
    ensures r == Cleanup(vm, i).(heaps := vm.heaps)
  {}

  /** What handleAlloc_ does, in terms of its plan. */
  lemma PlanForm(vm: Paging.Vm, i: nat, bytes: int)
    requires Shape(vm) && i < |vm.pids|
    ensures var (vm1, s, n) := AllocPlan(vm, i, bytes);
      && (n == 0 && CanTake(vm) ==> Alloc(vm, i, bytes) == (vm1, 0))
      && (bytes <= 0 || PagesNeeded(bytes) > HEAP_PAGES ==> vm1 == vm && n == 0)
      && (bytes > 0 && PagesNeeded(bytes) <= HEAP_PAGES ==>
            && vm1 == vm.(mem := GrowTable(vm.mem, i, HEAP_LAST + 1))
            && var f := FirstFit(vm1, i, PagesNeeded(bytes), HEAP_FIRST);
               if f.None? then n == 0 else s == f.value && n == PagesNeeded(bytes) > 0)
      && (n > 0 ==> i < |vm1.pids| && s + n <= |vm1.mem.tables[i]| && CanTake(vm1) == CanTake(vm))
      && (n > 0 && CanTake(vm) ==>
            Alloc(vm, i, bytes) ==
            (var g := GrabRange(vm1, i, s, n); g.(heaps := g.heaps[i := Record(g.heaps[i], s * PAGE_SIZE, n)]), s * PAGE_SIZE))
  {
    hide GrabRange, FirstFit, CanTake;
    GrownCanTake(vm, i, HEAP_LAST + 1);
    FirstFitInHeap(vm.(mem := GrowTable(vm.mem, i, HEAP_LAST + 1)), i, PagesNeeded(bytes), HEAP_FIRST);
  }

  lemma GrabKeepsShared(vm: Paging.Vm, i: nat, start: nat, n: nat)
    requires Shape(vm) && i < |vm.pids| && start + n <= |vm.mem.tables[i]| && CanTake(vm) && n > 0
    ensures SharedInUse(GrabRange(vm, i, start, n))
    ensures GrabRange(vm, i, start, n) == Grab(if n == 1 then vm else GrabRange(vm, i, start, n - 1), i, start + n - 1)
  {
    hide Grab;
  }

  lemma InstallFilled(vm: Paging.Vm, i: nat, vp: nat, p: nat, content: Page)
    requires Shape(vm) && i < |vm.pids| && vp < |vm.mem.tables[i]| && p < |vm.mem.frames|
    ensures var v := vm.(mem := vm.mem.(frames := vm.mem.frames[p := content]));
      Shape(v) && Install(v, i, vp, p, content) == Install(vm, i, vp, p, content)
  {
    assert vm.mem.frames[p := content][p := content] == vm.mem.frames[p := content];
  }

  /** A page fault is: grow the table, take a frame, fill it, install it. */
  lemma PageInSteps(vm: Paging.Vm, i: nat, vp: nat, v: Paging.Vm)
    requires Shape(vm) && i < |vm.pids| && CanTake(vm)
    requires var vm1 := vm.(mem := GrowTable(vm.mem, i, vp + 1));
      Shape(vm1) && CanTake(vm1) &&
      var vm2, k, p := TakeFrame(vm1), KeyOf(vm, i, vp), TakenFrame(vm1);
      var content := if k in vm2.disk then vm2.disk[k] else if HasFree(vm1.mem) then vm2.mem.frames[p] else ZeroPage();
      v == vm2.(mem := vm2.mem.(frames := vm2.mem.frames[p := content]), disk := vm2.disk - {k})
    ensures var p := TakenFrame(vm.(mem := GrowTable(vm.mem, i, vp + 1)));
      && Shape(v) && i < |v.pids| && vp < |v.mem.tables[i]| && p < |v.mem.frames|
      && PageIn(vm, i, vp) == Install(v, i, vp, p, v.mem.frames[p])
  {
    hide TakeFrame, HasFree, CanTake;
    var vm1 := vm.(mem := GrowTable(vm.mem, i, vp + 1));
    var vm2, k, p := TakeFrame(vm1), KeyOf(vm, i, vp), TakenFrame(vm1);
    var content := v.mem.frames[p];
    assert vm2.mem.frames[p := content][p := content] == vm2.mem.frames[p := content];
    if k !in vm2.disk { assert vm2.disk - {k} == vm2.disk; }
  }

  lemma GrownCanTake(vm: Paging.Vm, i: nat, n: nat)
    requires Shape(vm) && i < |vm.pids|
    ensures var r := vm.(mem := GrowTable(vm.mem, i, n)); Shape(r) && CanTake(r) == CanTake(vm) && SharedInUse(r) == SharedInUse(vm)
    ensures |GrowTable(vm.mem, i, n).tables[i]| >= n
  {}

  // What the scan of handleAlloc_ knows of the run it is in.

  lemma NoRun(vm: Paging.Vm, i: nat, s: nat)
    requires i < |vm.pids|
    ensures RunFree(vm, i, s, 0)
  {}

  lemma LongerRun(vm: Paging.Vm, i: nat, s: nat, n: nat)
    requires i < |vm.pids| && RunFree(vm, i, s, n) && PageFree(vm, i, s + n)
    ensures RunFree(vm, i, s, n + 1)
  {}

  lemma FoundRun(vm: Paging.Vm, i: nat, n: nat, s: nat)
    requires i < |vm.pids| && 0 < n && s + n <= HEAP_LAST + 1 && RunFree(vm, i, s, n)
    ensures FirstFit(vm, i, n, s) == Some(s)
  {}

  lemma EndOfHeap(vm: Paging.Vm, i: nat, n: nat, s: nat)
    requires i < |vm.pids| && (n == 0 || s + n > HEAP_LAST + 1)
    ensures FirstFit(vm, i, n, s) == None
  {}

  /** No run of n pages starts at or before a used page it would have to include. */
  lemma {:induction false} SkipUsed(vm: Paging.Vm, i: nat, n: nat, s: nat, used: nat)
    requires i < |vm.pids| && s <= used && (n == 0 || used < s + n) && !PageFree(vm, i, used)
    ensures FirstFit(vm, i, n, s) == FirstFit(vm, i, n, used + 1)
    decreases used - s
  {
    if s < used { SkipUsed(vm, i, n, s + 1, used); }
  }
}
