/** The scheduling half of OS.cpp as a value: priority ready queues, sleepers, locks and events,
    all queues over process indices. */
module Scheduling {
  import opened Basics

  datatype ProcState = New | Ready | Running | WaitingSleep | WaitingIO | WaitingLock | WaitingEvent | Terminated

  datatype Task = Task(
    pid: nat, priority: nat, state: ProcState, sleepCounter: nat, waitingLockId: int, waitingEventId: int)

  datatype Lock = Lock(held: bool, ownerPid: nat, waitQueue: seq<nat>)
  datatype Event = Event(signaled: bool, waitQueue: seq<nat>)

  /** requests[l] and grants[l] are history: who asked for lock l, and who got it, in order. */
  datatype Sched = Sched(
    tasks: seq<Task>,
    ready: seq<seq<nat>>,
    sleeping: seq<nat>,
    locks: seq<Lock>,
    events: seq<Event>,
    requests: seq<seq<nat>>,
    grants: seq<seq<nat>>)

  const NUM_LOCKS: nat := 10
  const NUM_EVENTS: nat := 10
  const LOWEST: nat := 32

  predicate Sized(s: Sched) {
    && |s.ready| == LOWEST + 1 && |s.locks| == NUM_LOCKS && |s.events| == NUM_EVENTS
    && |s.requests| == NUM_LOCKS && |s.grants| == NUM_LOCKS
  }

  function InitSched(): (s: Sched)
    ensures Sized(s)
  {
    Sched([], seq(LOWEST + 1, _ => []), [],
          seq(NUM_LOCKS, _ => Lock(false, 0, [])), seq(NUM_EVENTS, _ => Event(false, [])),
          seq(NUM_LOCKS, _ => []), seq(NUM_LOCKS, _ => []))
  }

  function Clamp(priority: nat): (p: nat)
    ensures 1 <= p <= LOWEST
  {
    if priority < 1 then 1 else if priority > LOWEST then LOWEST else priority
  }

  function SetState(s: Sched, i: nat, st: ProcState): Sched
    requires i < |s.tasks|
  {
    s.(tasks := s.tasks[i := s.tasks[i].(state := st)])
  }

  function Enqueue(s: Sched, i: nat): (r: Sched)
    requires Sized(s) && i < |s.tasks|
    ensures Sized(r)
  {
    var p := Clamp(s.tasks[i].priority);
    SetState(s, i, Ready).(ready := s.ready[p := s.ready[p] + [i]])
  }

  /** The first non-empty ready queue at or below priority level p, or LOWEST + 1. */
  function FirstReady(ready: seq<seq<nat>>, p: nat): (r: nat)
    requires |ready| == LOWEST + 1 && p <= LOWEST + 1
    ensures p <= r <= LOWEST + 1
    ensures r <= LOWEST ==> ready[r] != []
    ensures forall q | p <= q < r :: ready[q] == []
    decreases LOWEST + 1 - p
  {
    if p > LOWEST || ready[p] != [] then p else FirstReady(ready, p + 1)
  }

  function PickNext(s: Sched): (r: (Sched, Option<nat>))
    requires Sized(s)
    ensures Sized(r.0)
  {
    var p := FirstReady(s.ready, 1);
    if p > LOWEST then (s, None)
    else (s.(ready := s.ready[p := s.ready[p][1..]]), Some(s.ready[p][0]))
  }

  // ---- Sleepers (OS.cpp:377-388) ------------------------------------------------------------------

  predicate Below(q: seq<nat>, n: nat) {
    forall k | 0 <= k < |q| :: q[k] < n
  }

  /** Every queued index names a process. */
  predicate QueuesOk(s: Sched) {
    && (forall l | 0 <= l < |s.locks| :: Below(s.locks[l].waitQueue, |s.tasks|))
    && (forall e | 0 <= e < |s.events| :: Below(s.events[e].waitQueue, |s.tasks|))
    && Below(s.sleeping, |s.tasks|)
  }

  /** One turn of the tick loop: the front sleeper is dropped, woken, or counted down and put back. */
  function TickOne(s: Sched): (r: Sched)
    requires Sized(s) && s.sleeping != [] && Below(s.sleeping, |s.tasks|)
    ensures Sized(r) && Below(r.sleeping, |r.tasks|) && |r.tasks| == |s.tasks|
  {
    var i := s.sleeping[0];
    var s1 := s.(sleeping := s.sleeping[1..]);
    if s.tasks[i].state != WaitingSleep then s1
    else
      var c := s.tasks[i].sleepCounter;
      var left := if c > 0 then c - 1 else c;
      var s2 := s1.(tasks := s1.tasks[i := s1.tasks[i].(sleepCounter := left)]);
      if left == 0 then Enqueue(s2, i) else s2.(sleeping := s2.sleeping + [i])
  }

  function TickMany(s: Sched, n: nat): (r: Sched)
    requires Sized(s) && Below(s.sleeping, |s.tasks|)
    ensures Sized(r) && Below(r.sleeping, |r.tasks|) && |r.tasks| == |s.tasks|
    decreases n
  {
    if n == 0 || s.sleeping == [] then s else TickMany(TickOne(s), n - 1)
  }

  function Tick(s: Sched): (r: Sched)
    requires Sized(s) && Below(s.sleeping, |s.tasks|)
    ensures Sized(r) && |r.tasks| == |s.tasks|
  {
    TickMany(s, |s.sleeping|)
  }

  // ---- Traps (OS.cpp:98-214) ------------------------------------------------------------------------

  /** Why the running process stopped; the arguments are register values. */
  datatype Stop =
    | Yield
    | Sleep(count: int)
    | AcquireLock(id: int)
    | ReleaseLock(id: int)
    | WaitEvent(id: int)
    | SignalEvent(id: int)
    | Exit

  function GoToSleep(s: Sched, i: nat, count: int): (r: Sched)
    requires Sized(s) && i < |s.tasks|
    ensures Sized(r)
  {
    var c := if count <= 0 then 1 else ToWord(count);
    s.(tasks := s.tasks[i := s.tasks[i].(state := WaitingSleep, sleepCounter := c)],
       sleeping := s.sleeping + [i])
  }

  function Acquire(s: Sched, i: nat, id: int): (r: Sched)
    requires Sized(s) && i < |s.tasks|
    ensures Sized(r)
  {
    var l := ToInt32(id);
    if l < 0 || l >= NUM_LOCKS then Enqueue(s, i)
    else
      var s1 := s.(requests := s.requests[l := s.requests[l] + [i]]);
      if !s.locks[l].held then
        Enqueue(s1.(locks := s1.locks[l := s1.locks[l].(held := true, ownerPid := s.tasks[i].pid)],
                    grants := s1.grants[l := s1.grants[l] + [i]]), i)
      else
        s1.(tasks := s1.tasks[i := s1.tasks[i].(state := WaitingLock, waitingLockId := l)],
            locks := s1.locks[l := s1.locks[l].(waitQueue := s1.locks[l].waitQueue + [i])])
  }

  /** A held lock goes to the front of its wait queue, or becomes free. */
  function HandOver(s: Sched, l: nat): (r: Sched)
    requires Sized(s) && l < NUM_LOCKS
    requires Below(s.locks[l].waitQueue, |s.tasks|)
    ensures Sized(r) && |r.tasks| == |s.tasks| && (QueuesOk(s) ==> QueuesOk(r))
    ensures forall k | 0 <= k < NUM_LOCKS && k != l :: r.locks[k] == s.locks[k]
  {
    var q := s.locks[l].waitQueue;
    if q == [] then s.(locks := s.locks[l := Lock(false, 0, [])])
    else
      Enqueue(s.(locks := s.locks[l := s.locks[l].(ownerPid := s.tasks[q[0]].pid, waitQueue := q[1..])],
                 grants := s.grants[l := s.grants[l] + [q[0]]]), q[0])
  }

  function Release(s: Sched, i: nat, id: int): (r: Sched)
    requires Sized(s) && QueuesOk(s) && i < |s.tasks|
    ensures Sized(r)
  {
    var l := ToInt32(id);
    var s1 :=
      if 0 <= l < NUM_LOCKS && s.locks[l].held && s.locks[l].ownerPid == s.tasks[i].pid
      then HandOver(s, l) else s;
    Enqueue(s1, i)
  }

  function Wait(s: Sched, i: nat, id: int): (r: Sched)
    requires Sized(s) && i < |s.tasks|
    ensures Sized(r)
  {
    var e := ToInt32(id);
    if e < 0 || e >= NUM_EVENTS then Enqueue(s, i)
    else if s.events[e].signaled then Enqueue(s.(events := s.events[e := s.events[e].(signaled := false)]), i)
    else
      s.(tasks := s.tasks[i := s.tasks[i].(state := WaitingEvent, waitingEventId := e)],
         events := s.events[e := s.events[e].(waitQueue := s.events[e].waitQueue + [i])])
  }

  /** Wakes the waiters of event e in order. */
  function WakeAll(s: Sched, e: nat): (r: Sched)
    requires Sized(s) && e < NUM_EVENTS && Below(s.events[e].waitQueue, |s.tasks|)
    ensures Sized(r) && |r.tasks| == |s.tasks|
    decreases |s.events[e].waitQueue|
  {
    var q := s.events[e].waitQueue;
    if q == [] then s
    else WakeAll(Enqueue(s.(events := s.events[e := s.events[e].(waitQueue := q[1..])]), q[0]), e)
  }

  function Signal(s: Sched, i: nat, id: int): (r: Sched)
    requires Sized(s) && QueuesOk(s) && i < |s.tasks|
    ensures Sized(r)
  {
    var e := ToInt32(id);
    var s1 :=
      if e < 0 || e >= NUM_EVENTS then s
      else if s.events[e].waitQueue != [] then WakeAll(s, e)
      else s.(events := s.events[e := s.events[e].(signaled := true)]);
    Enqueue(s1, i)
  }

  /** The lock loop of cleanupProcess_, for locks below n. */
  function ReleaseHeld(s: Sched, pid: nat, n: nat): (r: Sched)
    requires Sized(s) && QueuesOk(s) && n <= NUM_LOCKS
    ensures Sized(r) && QueuesOk(r) && |r.tasks| == |s.tasks|
    ensures forall l | n <= l < NUM_LOCKS :: r.locks[l] == s.locks[l]
  {
    if n == 0 then s
    else
      var r := ReleaseHeld(s, pid, n - 1);
      if r.locks[n - 1].held && r.locks[n - 1].ownerPid == pid then HandOver(r, n - 1) else r
  }

  function Terminate(s: Sched, i: nat): (r: Sched)
    requires Sized(s) && QueuesOk(s) && i < |s.tasks|
    ensures Sized(r)
  {
    ReleaseHeld(SetState(s, i, Terminated), s.tasks[i].pid, NUM_LOCKS)
  }

  function Handle(s: Sched, i: nat, stop: Stop): (r: Sched)
    requires Sized(s) && QueuesOk(s) && i < |s.tasks|
    ensures Sized(r)
  {
    match stop
    case Yield => Enqueue(s, i)
    case Sleep(count) => GoToSleep(s, i, count)
    case AcquireLock(id) => Acquire(s, i, id)
    case ReleaseLock(id) => Release(s, i, id)
    case WaitEvent(id) => Wait(s, i, id)
    case SignalEvent(id) => Signal(s, i, id)
    case Exit => Terminate(s, i)
  }

  /** A new process enters the ready queue of its priority. */
  function Admit(s: Sched, pid: nat, priority: nat): (r: Sched)
    requires Sized(s)
    ensures Sized(r)
  {
    var t := Task(pid, priority, Ready, 0, -1, -1);
    Enqueue(s.(tasks := s.tasks + [t]), |s.tasks|)
  }
}
