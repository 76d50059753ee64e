/** Theorems about the whole system over every run. */
module System {
  import opened Basics
  import opened Memory
  import opened Paging
  import opened FrameInvariant
  import opened PagingRuns
  import opened FlatMemory
  import opened Kernel
  import opened KernelRuns
  import opened Leaks
  import Cpu = Processor
  import Flat = FlatInstructions
  import Iso = Isolation
  import Sched = Scheduling
  import SI = SchedulerInvariant
  import SR = SchedulerRuns

  // ---- One turn ------------------------------------------------------------------------------------------

  lemma DispatchKeepsInv(os: Os, s: Sched.Sched, i: nat)
    requires OsInv(os) && Shape(os.vm) && Picked(os.sched) == (s, Some(i))
    ensures i < |os.vm.pids| == |s.tasks| == |os.ctxs| && Cpu.CtxOk(os.ctxs[i])
    ensures DoneBy(DispatchTrace(os.vm, i, os.ctxs[i]), i)
    ensures var t := Dispatch(os.(sched := Sched.SetState(s, i, Sched.Running)), i);
      && t.Next? && OsInv(t.os) && t.os.vm == Run(os.vm, DispatchTrace(os.vm, i, os.ctxs[i]))
      && forall j | 0 <= j < |os.ctxs| && j != i :: t.os.ctxs[j] == os.ctxs[j]
  {
    hide Inv, Roomy, SI.SchedInv, SI.Serving, Dispatch, Picked, Sched.Handle, Live, Sched.QueuesOk, StoppedAt,
         DispatchTrace;
    assert Aligned(os, i);
    PickedStatus(os.sched, i);
    var o := os.(sched := Sched.SetState(s, i, Sched.Running));
    DispatchIsRun(o, i);
    var ops := DispatchTrace(os.vm, i, os.ctxs[i]);
    var (_, d, outcome) := StoppedAt(os.vm, i, os.ctxs[i]);
    var stop := StopOf(d, outcome);
    var t := Dispatch(o, i).os;
    SI.HandleServes(o.sched, i, stop);
    RunKeepsInv(os.vm, ops);
    HandleStatus(o.sched, i, stop, i);
    RunLive(os.vm, ops, i, i);
    forall j: nat | j < |t.vm.pids| ensures Aligned(t, j) {
      assert Aligned(os, j);
      PickedStatus(os.sched, j);
      HandleStatus(o.sched, i, stop, j);
      RunLive(os.vm, ops, i, j);
    }
  }

  /** What a turn does to memory: the byte accesses of the process picked during its quantum, in order, and
      then the one operation the OS performs for it, if any. */
  function TurnTrace(os: Os): seq<Op>
    requires OsInv(os)
  {
    hide Inv, DispatchTrace;
    InvShape(os.vm);
    match Picked(os.sched).1
    case None => []
    case Some(i) =>
      assert Aligned(os, i);
      DispatchTrace(os.vm, i, os.ctxs[i])
  }

  /** Every turn of the loop keeps the whole invariant: no exception leaves run(), the process picked is
      never a terminated one, and what the turn does to memory is the run of its trace, all of it done by that
      process. */
  lemma TurnKeepsInv(os: Os)
    requires OsInv(os)
    ensures Shape(os.vm)
    ensures var t := Turn(os);
      && !t.Escaped? && OsInv(t.os) && t.os.vm == Run(os.vm, TurnTrace(os))
      && (t.Returned? ==> SR.Finished(t.os.sched) && t.os == os.(sched := t.os.sched))
    ensures var (s, next) := Picked(os.sched);
      && (next.Some? ==> s.tasks[next.value].state != Sched.Terminated && DoneBy(TurnTrace(os), next.value))
      && (next.Some? ==> forall j | 0 <= j < |os.ctxs| && j != next.value :: Turn(os).os.ctxs[j] == os.ctxs[j])
      && (next.Some? ==> Turn(os).Next?)
  {
    hide Inv, Roomy, SI.SchedInv, SI.Serving, Dispatch, Picked, Live, DispatchTrace;
    InvShape(os.vm);
    var (s, next) := Picked(os.sched);
    if next.Some? {
      PickedStatus(os.sched, next.value);
      DispatchKeepsInv(os, s, next.value);
    } else {
      NobodyReady(os.sched);
      forall j: nat | j < |os.vm.pids| ensures Aligned(os.(sched := s), j) {
        assert Aligned(os, j);
        PickedStatus(os.sched, j);
      }
    }
  }

  lemma NobodyReady(s: Sched.Sched)
    requires SI.SchedInv(s) && Picked(s).1.None?
    ensures Picked(s).0.sleeping == [] ==> SR.Finished(Picked(s).0)
  {
    var r := Picked(s).0;
    assert r.ready[0] != [] ==> SI.InReady(r, 0, r.ready[0][0]);
  }

  /** A turn is one pass of the scheduler, so locks are fair and sleepers punctual in the whole system. */
  lemma TurnIsPass(os: Os) returns (stop: Sched.Stop)
    requires OsInv(os)
    ensures Turn(os).Escaped? || Turn(os).os.sched == SR.Pass(os.sched, stop)
  {
    hide Inv, Roomy, SI.SchedInv, SI.Serving, Sched.Handle, Live, Sched.QueuesOk, StoppedAt, DispatchTrace,
         Sched.Tick, Sched.PickNext;
    var (s, next) := Picked(os.sched);
    stop := Sched.Yield;
    if next.Some? {
      var i := next.value;
      PickedStatus(os.sched, i);
      assert Aligned(os, i);
      var o := os.(sched := Sched.SetState(s, i, Sched.Running));
      InvShape(os.vm);
      DispatchIsRun(o, i);
      var (_, d, outcome) := StoppedAt(os.vm, i, os.ctxs[i]);
      stop := StopOf(d, outcome);
    }
  }

  /** While nobody is ready the loop spins, and the spin ends: each turn without a dispatch brings the first
      sleeper strictly closer. */
  lemma IdleSpinEnds(os: Os)
    requires OsInv(os) && Picked(os.sched).1.None? && Turn(os).Next? && os.sched.sleeping != []
    ensures var s, r := os.sched, Turn(os).os.sched;
      && r.sleeping != [] && Sched.Below(s.sleeping, |s.tasks|) && Sched.Below(r.sleeping, |r.tasks|)
      && SR.Soonest(r.tasks, r.sleeping) < SR.Soonest(s.tasks, s.sleeping)
  {
    SR.IdleTickProgress(os.sched);
  }

  // ---- Isolation -------------------------------------------------------------------------------------------

  /** The OS operation of this turn, looked at before it is performed, takes no private page that is clean and
      not zero. */
  ghost predicate SafeTurn(os: Os)
    requires OsInv(os)
  {
    InvShape(os.vm);
    match Picked(os.sched).1
    case None => true
    case Some(i) =>
      assert Aligned(os, i);
      SafeService(os.vm, i, os.ctxs[i])
  }

  /** The accesses of a quantum evict nothing, so its turn is safe iff that one operation is. */
  lemma TurnIsSafe(os: Os)
    requires OsInv(os)
    ensures Shape(os.vm) && (SafeRun(os.vm, TurnTrace(os)) <==> SafeTurn(os))
  {
    hide Inv, Roomy, SI.SchedInv, Picked, Live, DispatchTrace, SafeService;
    InvShape(os.vm);
    var (s, next) := Picked(os.sched);
    if next.Some? {
      assert Aligned(os, next.value);
      PickedStatus(os.sched, next.value);
      DispatchIsSafe(os.vm, next.value, os.ctxs[next.value]);
    }
  }

  /** The OS operation of this turn, looked at before it is performed, takes no private page of process j that is
      clean and not zero. */
  ghost predicate TurnSpares(os: Os, i: nat, j: nat)
    requires OsInv(os) && i < |os.ctxs|
  {
    InvShape(os.vm);
    assert Aligned(os, i);
    Iso.ServiceSpares(os.vm, i, os.ctxs[i], j)
  }

  /** A turn that dispatches process i, its faults and system calls included, leaves every other process its
      registers, ip, sp, flags, allocations and liveness; and all its private bytes, if and only if the operation
      the OS performs in it takes no private page of that process that is clean and not zero. */
  lemma Isolation(os: Os, i: nat, j: nat)
    requires OsInv(os) && Picked(os.sched).1 == Some(i) && j < |os.ctxs| && j != i
    ensures Shape(os.vm) && Turn(os).Next? && j < |os.vm.heaps| && Shape(Turn(os).os.vm) && i < |os.ctxs|
    ensures var r := Turn(os).os;
      && |r.ctxs| == |os.ctxs| && r.ctxs[j] == os.ctxs[j]
      && |r.vm.heaps| == |os.vm.heaps| && r.vm.heaps[j] == os.vm.heaps[j]
      && (Live(r.vm, j) <==> Live(os.vm, j))
      && (Flat.SameBytes(os.vm, r.vm, j) <==> TurnSpares(os, i, j))
  {
    hide Inv, Roomy, SI.SchedInv, SI.Serving, Turn, Picked, Live, Flat.SameBytes, DispatchTrace, Iso.ServiceSpares,
         Iso.SameViews;
    TurnKeepsInv(os);
    var ops := TurnTrace(os);
    assert Aligned(os, i);
    PickedStatus(os.sched, i);
    RunLive(os.vm, ops, i, j);
    Iso.DispatchSpares(os.vm, i, os.ctxs[i], j);
    Iso.SameViewsIsSameBytes(os.vm, Turn(os).os.vm, j);
  }

  // ---- Whole runs --------------------------------------------------------------------------------------------

  /** createProcessFromAsm of an assembled program, or one turn of the loop. */
  datatype Event = Creation(code: seq<Byte>, priority: nat) | LoopTurn

  function InitialCtx(): (c: Cpu.Ctx)
    ensures Cpu.CtxOk(c)
  {
    Cpu.Ctx(seq(16, _ => 0), CODE_BASE, STACK_TOP, false, false, 0, 0)
  }

  /** Program images end below the stack top, as the source's page table requires. */
  predicate Loadable(events: seq<Event>) {
    forall e | e in events :: e.Creation? ==> |e.code| <= 0xE000
  }

  lemma LoadablePrefix(events: seq<Event>)
    requires Loadable(events) && events != []
    ensures Loadable(events[..|events| - 1])
    ensures var e := events[|events| - 1]; e.Creation? ==> |e.code| <= 0xE000
  {
    assert events[|events| - 1] in events;
  }

  function CreateProcess(os: Os, code: seq<Byte>, priority: nat): Os
    requires OsInv(os) && |code| <= 0xE000
  {
    hide Inv, Create;
    InvShape(os.vm);
    var (vm, ok) := Create(os.vm, code);
    if ok then Os(vm, Sched.Admit(os.sched, os.vm.nextPid, priority), os.ctxs + [InitialCtx()])
    else os.(vm := vm)
  }

  lemma CreateProcessInv(os: Os, code: seq<Byte>, priority: nat)
    requires OsInv(os) && |code| <= 0xE000
    ensures OsInv(CreateProcess(os, code, priority))
    ensures Shape(os.vm) && CreateProcess(os, code, priority).vm == Step(os.vm, Spawn(code))
  {
    hide Inv, Roomy, Create, SI.Serving, Live;
    InvShape(os.vm);
    CreateInv(os.vm, code);
    var r := CreateProcess(os, code, priority);
    assert os.vm.nextPid !in os.vm.pids by { NextPidIsNew(os.vm); }
    if Create(os.vm, code).1 {
      forall i: nat | i < |os.sched.tasks| ensures os.sched.tasks[i].pid != os.vm.nextPid { assert Aligned(os, i); }
      SI.AdmitServes(os.sched, os.vm.nextPid, priority);
    }
    forall i: nat | i < |r.vm.pids| ensures Aligned(r, i) {
      if i < |os.vm.pids| {
        assert Aligned(os, i);
        CreateLive(os.vm, code, i);
      }
    }
  }

  /** The system after a sequence of events, from a cold start. */
  ghost function After(numFrames: nat, events: seq<Event>): (os: Os)
    requires NUM_SHARED <= numFrames <= MAX_FRAMES && Loadable(events)
    ensures OsInv(os)
  {
    hide OsInv, Turn, CreateProcess;
    if events == [] then
      StartInv(numFrames);
      Os(Boot(numFrames), Sched.InitSched(), [])
    else
      LoadablePrefix(events);
      var os := After(numFrames, events[..|events| - 1]);
      match events[|events| - 1]
      case Creation(code, priority) =>
        CreateProcessInv(os, code, priority);
        CreateProcess(os, code, priority)
      case LoopTurn =>
        TurnKeepsInv(os);
        Turn(os).os
  }

  lemma StartInv(numFrames: nat)
    requires NUM_SHARED <= numFrames <= MAX_FRAMES
    ensures OsInv(Os(Boot(numFrames), Sched.InitSched(), []))
  {
    BootInv(numFrames);
    SI.InitServes();
  }

  // ---- The loop of run() ------------------------------------------------------------------------------------

  /** The loop from os on, for at most n turns; and whether it returned by then. */
  ghost function Turns(os: Os, n: nat): (r: (Os, bool))
    requires OsInv(os)
    ensures OsInv(r.0)
  {
    hide OsInv, Turn;
    if n == 0 then (os, false)
    else
      var (v, done) := Turns(os, n - 1);
      TurnKeepsInv(v);
      if done then (v, true) else (Turn(v).os, Turn(v).Returned?)
  }

  /** Once it has returned, more turns change nothing. */
  lemma {:induction false} TurnsStop(os: Os, k: nat, n: nat)
    requires OsInv(os) && k <= n && Turns(os, k).1
    ensures Turns(os, n) == Turns(os, k)
    decreases n
  {
    hide OsInv, Turn;
    if k < n { TurnsStop(os, k, n - 1); }
  }

  function Loops(n: nat): (events: seq<Event>)
    ensures |events| == n && forall e | e in events :: e == LoopTurn
  {
    seq(n, _ => LoopTurn)
  }

  /** The loop, entered after some events, passes through states of a run of the system, and ends in the state
      after as many turns as it made; all n of them unless it returned. */
  lemma {:induction false} TurnsAreEvents(numFrames: nat, events: seq<Event>, n: nat) returns (k: nat)
    requires NUM_SHARED <= numFrames <= MAX_FRAMES && Loadable(events)
    ensures k <= n && Loadable(events + Loops(k))
    ensures var os := After(numFrames, events);
      Turns(os, n).0 == After(numFrames, events + Loops(k)) && (Turns(os, n).1 || k == n)
  {
    hide OsInv, Turn, CreateProcess;
    var os := After(numFrames, events);
    if n == 0 {
      k := 0;
      assert events + Loops(0) == events;
    } else {
      k := TurnsAreEvents(numFrames, events, n - 1);
      if !Turns(os, n - 1).1 {
        k := n;
        var all := events + Loops(n);
        assert all[..|all| - 1] == events + Loops(n - 1);
        assert all[|all| - 1] == LoopTurn;
      }
    }
  }

  // ---- What events do to memory -----------------------------------------------------------------------------

  /** What an event does to memory. */
  function EventTrace(os: Os, e: Event): seq<Op>
    requires OsInv(os)
  {
    match e
    case Creation(code, _) => [Spawn(code)]
    case LoopTurn => TurnTrace(os)
  }

  /** Every operation on memory since the cold start, in order. */
  ghost function SystemTrace(numFrames: nat, events: seq<Event>): seq<Op>
    requires NUM_SHARED <= numFrames <= MAX_FRAMES && Loadable(events)
  {
    hide OsInv, EventTrace;
    if events == [] then []
    else
      LoadablePrefix(events);
      var before := events[..|events| - 1];
      SystemTrace(numFrames, before) + EventTrace(After(numFrames, before), events[|events| - 1])
  }

  /** Every turn so far was safe. */
  ghost predicate SafeEvents(numFrames: nat, events: seq<Event>)
    requires NUM_SHARED <= numFrames <= MAX_FRAMES && Loadable(events)
  {
    hide OsInv, SafeTurn;
    events == [] ||
    (LoadablePrefix(events);
     var before := events[..|events| - 1];
     SafeEvents(numFrames, before) && (events[|events| - 1].LoopTurn? ==> SafeTurn(After(numFrames, before))))
  }

  /** One event does to memory what its trace says, and is safe iff a turn of the loop is. */
  lemma EventRuns(numFrames: nat, events: seq<Event>)
    requires NUM_SHARED <= numFrames <= MAX_FRAMES && Loadable(events) && events != []
    ensures Loadable(events[..|events| - 1])
    ensures var os, e := After(numFrames, events[..|events| - 1]), events[|events| - 1];
      && Shape(os.vm) && After(numFrames, events).vm == Run(os.vm, EventTrace(os, e))
      && (SafeRun(os.vm, EventTrace(os, e)) <==> (e.LoopTurn? ==> SafeTurn(os)))
  {
    hide OsInv, Turn, CreateProcess, Run, Step, TurnTrace, SafeTurn, SafeRun;
    LoadablePrefix(events);
    var os := After(numFrames, events[..|events| - 1]);
    match events[|events| - 1]
    case Creation(code, priority) =>
      CreateProcessInv(os, code, priority);
      OneStep(os.vm, Spawn(code));
      OneSafe(os.vm, Spawn(code));
    case LoopTurn =>
      TurnKeepsInv(os);
      TurnIsSafe(os);
  }

  /** Whatever programs are created and however long the loop turns, the memory of the system is that of the
      run of its trace, and the evictions of that run are safe iff those of every turn were: every theorem
      about runs of the paging system speaks about the real system. */
  lemma {:induction false} SystemRunsPaging(numFrames: nat, events: seq<Event>)
    requires NUM_SHARED <= numFrames <= MAX_FRAMES && Loadable(events)
    ensures After(numFrames, events).vm == Run(Boot(numFrames), SystemTrace(numFrames, events))
    ensures SafeRun(Boot(numFrames), SystemTrace(numFrames, events)) <==> SafeEvents(numFrames, events)
  {
    hide OsInv, Turn, CreateProcess, Run, Step, SafeRun, SafeTurn, EventTrace, Boot;
    if events == [] {
      EmptyRun(Boot(numFrames));
      SafeStart(Boot(numFrames));
    } else {
      var before, e := events[..|events| - 1], events[|events| - 1];
      EventRuns(numFrames, events);
      SystemRunsPaging(numFrames, before);
      var ops, more := SystemTrace(numFrames, before), EventTrace(After(numFrames, before), e);
      RunConcat(Boot(numFrames), ops, more);
      SafeConcat(Boot(numFrames), ops, more);
    }
  }

  /** So the real system gives every process one flat byte array throughout, whatever the interleaving, iff
      no turn of it takes a private page that is clean and not zero. */
  lemma SystemIsFlatIffSafe(numFrames: nat, events: seq<Event>)
    requires NUM_SHARED <= numFrames <= MAX_FRAMES && Loadable(events)
    ensures AlwaysFlat(Boot(numFrames), SystemTrace(numFrames, events)) <==> SafeEvents(numFrames, events)
    ensures SafeEvents(numFrames, events) ==>
              forall j: nat, q: nat | !InSharedWindow(q) ::
                View(After(numFrames, events).vm, j, q) == FlatRun(Boot(numFrames), SystemTrace(numFrames, events), j, q)
  {
    hide Boot, After, Run, FlatRun, SafeRun, View, SafeEvents, SystemTrace;
    SystemRunsPaging(numFrames, events);
    FlatIffSafe(numFrames, SystemTrace(numFrames, events));
  }

  // ---- When run() returns -----------------------------------------------------------------------------------

  /** No turn can ready anybody: everybody has terminated or waits for a lock or an event. */
  ghost predicate NobodyToRun(s: Sched.Sched) {
    forall i | 0 <= i < |s.tasks| :: s.tasks[i].state in {Sched.Terminated, Sched.WaitingLock, Sched.WaitingEvent}
  }

  lemma StuckStays(s: Sched.Sched)
    requires SI.SchedInv(s) && NobodyToRun(s)
    ensures Picked(s) == (s, None) && s.sleeping == []
  {
    PickedServes(s);
    assert s.sleeping == [];
    SI.PickServes(s);
  }

  /** Whoever was ready or asleep still is, or has been readied. */
  lemma StillToRun(s: Sched.Sched, i: nat)
    requires SI.SchedInv(s) && i < |s.tasks| && s.tasks[i].state !in {Sched.Terminated, Sched.WaitingLock, Sched.WaitingEvent}
    ensures Picked(s).1.Some? || Picked(s).0.sleeping != []
  {
    hide SI.Serving, Sched.PickNext, Sched.TickMany;
    SR.ExactlyOnePlace(s, i);
    SR.InvQueues(s);
    SI.TickServes(s, |s.sleeping|);
    StateAfterTick(s, i);
    PickedServes(s);
    if Picked(s).1.None? && Picked(s).0.sleeping == [] {
      NobodyReady(s);
      SI.PickServes(Sched.Tick(s));
      EmptyQueues(Sched.Tick(s), i);
    }
  }

  lemma StateAfterTick(s: Sched.Sched, i: nat)
    requires SI.SchedInv(s) && i < |s.tasks| && s.tasks[i].state in {Sched.Ready, Sched.WaitingSleep} && Sched.Below(s.sleeping, |s.tasks|)
    ensures Sched.Tick(s).tasks[i].state in {Sched.Ready, Sched.WaitingSleep}
  {
    SR.TickManyTasks(s, |s.sleeping|, i);
  }

  lemma EmptyQueues(s: Sched.Sched, i: nat)
    requires SI.SchedInv(s) && SR.Finished(s) && i < |s.tasks|
    ensures s.tasks[i].state !in {Sched.Ready, Sched.WaitingSleep}
  {
    SR.ExactlyOnePlace(s, i);
    NowhereIn(s.ready, i);
  }

  lemma {:induction false} NowhereIn(qs: seq<seq<nat>>, i: nat)
    requires forall p | 0 <= p < |qs| :: qs[p] == []
    ensures SI.OccursIn(qs, i) == 0
  {
    if qs != [] { NowhereIn(qs[1..], i); }
  }

  /** run() returns exactly when everybody has terminated or waits for a lock or an event, and changes nothing then. */
  lemma ReturnsIffNobodyToRun(os: Os)
    requires OsInv(os)
    ensures Turn(os).Returned? <==> NobodyToRun(os.sched)
    ensures Turn(os).Returned? ==> Turn(os).os == os
  {
    hide Inv, Roomy, SI.Serving, Dispatch, Picked, Live;
    TurnKeepsInv(os);
    if NobodyToRun(os.sched) {
      StuckStays(os.sched);
    } else {
      var i :| 0 <= i < |os.sched.tasks| && os.sched.tasks[i].state !in {Sched.Terminated, Sched.WaitingLock, Sched.WaitingEvent};
      StillToRun(os.sched, i);
    }
  }

  /** If run() returns and nobody waits for an event, then either some processes wait for each other's locks
      in a cycle, or every process has terminated; then the disk is empty and, unless a creation failed half
      way, exactly the shared frames are in use. */
  lemma WhenRunReturns(os: Os)
    requires OsInv(os) && Turn(os).Returned?
    requires forall e | 0 <= e < Sched.NUM_EVENTS :: os.sched.events[e].waitQueue == []
    ensures var r := Turn(os).os;
      || (exists c :: SR.Cycle(r.sched, c))
      || ((forall i | 0 <= i < |r.sched.tasks| :: r.sched.tasks[i].state == Sched.Terminated)
          && r.vm.disk == map[]
          && (OwnersKnown(r.vm) ==> r.vm.owner == map[])
          && (OwnersKnown(r.vm) ==> forall f: nat | f < |r.vm.mem.used| :: r.vm.mem.used[f] <==> f in r.vm.shared))
  {
    hide Inv, Roomy, SI.Serving, Live, Sched.Tick, OwnersKnown, SR.WaitsFor;
    TurnKeepsInv(os);
    var r := Turn(os).os;
    TickEvents(os.sched);
    SR.FinishedOrDeadlocked(r.sched);
    if forall i | 0 <= i < |r.sched.tasks| :: r.sched.tasks[i].state == Sched.Terminated {
      forall i: nat | i < |r.vm.pids| ensures !Live(r.vm, i) { assert Aligned(r, i); }
      NothingLeft(r.vm);
    }
  }

  lemma {:induction false} TickManyEvents(s: Sched.Sched, n: nat)
    requires Sched.Sized(s) && Sched.Below(s.sleeping, |s.tasks|)
    ensures Sched.TickMany(s, n).events == s.events
    decreases n
  {
    if n > 0 && s.sleeping != [] {
      TickManyEvents(Sched.TickOne(s), n - 1);
    }
  }

  lemma TickEvents(s: Sched.Sched)
    requires SI.SchedInv(s)
    ensures Picked(s).0.events == s.events
  {
    SI.ServingQueues(s, {}, {});
    TickManyEvents(s, |s.sleeping|);
  }
}
