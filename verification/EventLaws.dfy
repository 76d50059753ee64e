/** Events told by their fields and the queues alone: whom a signal wakes, whom a wait lets through, and that nothing
    of either is lost or counted twice over a run. */
module EventLaws {
  import opened Basics
  import opened Scheduling
  import opened SchedulerInvariant
  import opened SchedulerRuns
  import opened LockLaws

  // ---- One call ----------------------------------------------------------------------------------------------

  /** A wait on a set flag clears it and the caller stays ready; else the caller waits behind those who wait already.
      An id that names no event changes no event. */
  lemma WaitLaw(s: Sched, i: nat, id: int)
    requires Sized(s) && QueuesOk(s) && i < |s.tasks|
    ensures var r, e := Handle(s, i, WaitEvent(id)), ToInt32(id);
      && Sized(r) && r.locks == s.locks
      && (forall k | 0 <= k < NUM_EVENTS && k != e :: r.events[k] == s.events[k])
      && (e < 0 || e >= 10 ==> Readied(s, r, [i]))
      && (0 <= e < 10 && s.events[e].signaled ==>
            !r.events[e].signaled && r.events[e].waitQueue == s.events[e].waitQueue && Readied(s, r, [i]))
      && (0 <= e < 10 && !s.events[e].signaled ==>
            && !r.events[e].signaled && r.events[e].waitQueue == s.events[e].waitQueue + [i]
            && r.ready == s.ready && r.sleeping == s.sleeping
            && r.tasks == s.tasks[i := s.tasks[i].(state := WaitingEvent, waitingEventId := e)])
  {
    var e := ToInt32(id);
    if 0 <= e < 10 && s.events[e].signaled {
      var v := s.(events := s.events[e := s.events[e].(signaled := false)]);
      ReadiedOne(v, i);
      ReadiedFrom(s, v, Enqueue(v, i), [i]);
    } else {
      ReadiedOne(s, i);
    }
  }

  /** A signal with processes waiting makes all of them ready, in the order they waited and ahead of the caller, and
      leaves the flag alone; with nobody waiting it sets the flag. An id that names no event changes no event. */
  lemma SignalLaw(s: Sched, i: nat, id: int)
    requires Sized(s) && QueuesOk(s) && i < |s.tasks|
    ensures var r, e := Handle(s, i, SignalEvent(id)), ToInt32(id);
      && Sized(r) && r.locks == s.locks
      && (forall k | 0 <= k < NUM_EVENTS && k != e :: r.events[k] == s.events[k])
      && (e < 0 || e >= 10 ==> Readied(s, r, [i]))
      && (0 <= e < 10 ==> r.events[e].waitQueue == [] && Readied(s, r, s.events[e].waitQueue + [i]))
      && (0 <= e < 10 && s.events[e].waitQueue != [] ==> r.events[e].signaled == s.events[e].signaled)
      && (0 <= e < 10 && s.events[e].waitQueue == [] ==> r.events[e].signaled)
  {
    var e := ToInt32(id);
    if 0 <= e < 10 && s.events[e].waitQueue != [] {
      WakeAllLaw(s, e);
      ReadiedOne(WakeAll(s, e), i);
      ReadiedThen(s, WakeAll(s, e), Handle(s, i, SignalEvent(id)), s.events[e].waitQueue, [i]);
    } else if 0 <= e < 10 {
      var v := s.(events := s.events[e := s.events[e].(signaled := true)]);
      ReadiedOne(v, i);
      ReadiedFrom(s, v, Enqueue(v, i), [i]);
      assert s.events[e].waitQueue + [i] == [i];
    } else {
      ReadiedOne(s, i);
    }
  }

  lemma {:induction false} WakeAllLaw(s: Sched, e: nat)
    requires Sized(s) && e < NUM_EVENTS && Below(s.events[e].waitQueue, |s.tasks|)
    ensures var r := WakeAll(s, e);
      && Readied(s, r, s.events[e].waitQueue) && r.locks == s.locks
      && (forall k | 0 <= k < NUM_EVENTS && k != e :: r.events[k] == s.events[k])
      && r.events[e] == s.events[e].(waitQueue := [])
    decreases |s.events[e].waitQueue|
  {
    hide Enqueue, Readied;
    var q := s.events[e].waitQueue;
    if q == [] {
      ReadiedNone(s, s);
    } else {
      var v := s.(events := s.events[e := s.events[e].(waitQueue := q[1..])]);
      ReadiedOne(v, q[0]);
      ReadiedFrom(s, v, Enqueue(v, q[0]), [q[0]]);
      ReadiedSize(v, Enqueue(v, q[0]), [q[0]]);
      WakeAllLaw(Enqueue(v, q[0]), e);
      ReadiedThen(s, Enqueue(v, q[0]), WakeAll(s, e), [q[0]], q[1..]);
      assert [q[0]] + q[1..] == q;
    }
  }

  lemma ReadiedSize(s: Sched, r: Sched, who: seq<nat>)
    requires Readied(s, r, who)
    ensures |r.tasks| == |s.tasks|
  {}

  // ---- Whole runs ----------------------------------------------------------------------------------------------

  /** In this pass somebody waits on event e and goes on at once. */
  ghost predicate LetThrough(s: Sched, stop: Stop, e: nat)
    requires SchedInv(s)
  {
    && Chosen(s).Some? && stop.WaitEvent? && ToInt32(stop.id) == e
    && Pass(s, stop).tasks[Chosen(s).value].state == Ready
  }

  /** In this pass somebody waits on event e and has to wait. */
  ghost predicate Blocked(s: Sched, stop: Stop, e: nat)
    requires SchedInv(s)
  {
    && Chosen(s).Some? && stop.WaitEvent? && ToInt32(stop.id) == e
    && Pass(s, stop).tasks[Chosen(s).value].state == WaitingEvent
  }

  /** In this pass somebody signals event e. */
  ghost predicate Signals(s: Sched, stop: Stop, e: nat)
    requires SchedInv(s)
  {
    Chosen(s).Some? && stop.SignalEvent? && ToInt32(stop.id) == e
  }

  /** One pass, from the flag and the queue of event e before it to those after it. */
  lemma PassEvent(s: Sched, stop: Stop, e: nat)
    requires SchedInv(s) && e < NUM_EVENTS
    ensures Sized(s) && Sized(Pass(s, stop))
    ensures var was, now := s.events[e], Pass(s, stop).events[e];
      && (LetThrough(s, stop, e) <==> Chosen(s).Some? && stop.WaitEvent? && ToInt32(stop.id) == e && was.signaled)
      && (Blocked(s, stop, e) <==> Chosen(s).Some? && stop.WaitEvent? && ToInt32(stop.id) == e && !was.signaled)
      && now.signaled == (if Signals(s, stop, e) && was.waitQueue == [] then true
                          else if LetThrough(s, stop, e) then false else was.signaled)
      && now.waitQueue == (if Signals(s, stop, e) then []
                           else if Blocked(s, stop, e) then was.waitQueue + [Chosen(s).value] else was.waitQueue)
      && (Signals(s, stop, e) ==> forall w | w in was.waitQueue :: w < |s.tasks| && Pass(s, stop).tasks[w].state == Ready)
  {
    var v := PassServes(s, stop);
    if Chosen(s).Some? {
      EventAfter(v, Chosen(s).value, stop, e);
      SameQueueTasks(s, v, e);
    }
  }

  lemma SameQueueTasks(s: Sched, v: Sched, e: nat)
    requires Sized(s) && Sized(v) && v.events == s.events && |v.tasks| == |s.tasks| && e < NUM_EVENTS && QueuesOk(v)
    ensures forall w | w in s.events[e].waitQueue :: w < |s.tasks|
  {}

  lemma EventAfter(s: Sched, i: nat, stop: Stop, e: nat)
    requires Sized(s) && QueuesOk(s) && i < |s.tasks| && e < NUM_EVENTS
    ensures var r := Handle(s, i, stop); var was, now := s.events[e], r.events[e];
      var waits, signals := stop.WaitEvent? && ToInt32(stop.id) == e, stop.SignalEvent? && ToInt32(stop.id) == e;
      && |r.tasks| == |s.tasks|
      && (waits ==> r.tasks[i].state == if was.signaled then Ready else WaitingEvent)
      && now.signaled == (if signals && was.waitQueue == [] then true else if waits then false else was.signaled)
      && now.waitQueue == (if signals then []
                           else if waits && !was.signaled then was.waitQueue + [i] else was.waitQueue)
      && (signals ==> forall w | w in was.waitQueue :: r.tasks[w].state == Ready)
  {
    hide Readied;
    var r := Handle(s, i, stop);
    HandleKeepsTasks(s, i, stop);
    match stop
    case WaitEvent(id) =>
      WaitLaw(s, i, id);
      if ToInt32(id) == e && s.events[e].signaled { ReadiedMember(s, r, [i], 0); }
    case SignalEvent(id) =>
      SignalLaw(s, i, id);
      if ToInt32(id) == e {
        var q := s.events[e].waitQueue;
        forall w | w in q ensures w < |s.tasks| && r.tasks[w].state == Ready {
          var k :| 0 <= k < |q| && q[k] == w;
          ReadiedMember(s, r, q + [i], k);
        }
      }
    case AcquireLock(id) => AcquireLaw(s, i, id);
    case ReleaseLock(id) => ReleaseLaw(s, i, id);
    case Exit => ExitLaw(s, i);
    case Yield | Sleep(_) =>
  }

  /** How often in this run a signal found nobody waiting and the flag of event e not set. */
  ghost function FlagsSet(s: Sched, stops: seq<Stop>, e: nat): nat
    requires SchedInv(s) && e < NUM_EVENTS
  {
    if stops == [] then 0
    else
      var v, stop := Passes(s, stops[..|stops| - 1]), stops[|stops| - 1];
      InvSized(v);
      FlagsSet(s, stops[..|stops| - 1], e) +
      if Signals(v, stop, e) && !v.events[e].signaled && v.events[e].waitQueue == [] then 1 else 0
  }

  /** How often a wait on it went through at once. */
  ghost function WaitsThrough(s: Sched, stops: seq<Stop>, e: nat): nat
    requires SchedInv(s)
  {
    if stops == [] then 0
    else
      WaitsThrough(s, stops[..|stops| - 1], e) +
      if LetThrough(Passes(s, stops[..|stops| - 1]), stops[|stops| - 1], e) then 1 else 0
  }

  /** How often a wait on it had to wait. */
  ghost function WaitsBlocked(s: Sched, stops: seq<Stop>, e: nat): nat
    requires SchedInv(s)
  {
    if stops == [] then 0
    else
      WaitsBlocked(s, stops[..|stops| - 1], e) +
      if Blocked(Passes(s, stops[..|stops| - 1]), stops[|stops| - 1], e) then 1 else 0
  }

  /** How many processes the signals of it woke. */
  ghost function Woken(s: Sched, stops: seq<Stop>, e: nat): nat
    requires SchedInv(s) && e < NUM_EVENTS
  {
    if stops == [] then 0
    else
      var v, stop := Passes(s, stops[..|stops| - 1]), stops[|stops| - 1];
      InvSized(v);
      Woken(s, stops[..|stops| - 1], e) + if Signals(v, stop, e) then |v.events[e].waitQueue| else 0
  }

  /** Conservation over every run: each time the flag is set exactly one later wait goes through on it, and each process
      that had to wait is woken exactly once; what is left over is the flag still set and the processes still waiting. */
  lemma {:induction false} SignalsAreKept(s: Sched, stops: seq<Stop>, e: nat)
    requires SchedInv(s) && e < NUM_EVENTS
    ensures Sized(s) && Sized(Passes(s, stops))
    ensures var was, now := s.events[e], Passes(s, stops).events[e];
      && FlagsSet(s, stops, e) + (if was.signaled then 1 else 0) ==
           WaitsThrough(s, stops, e) + (if now.signaled then 1 else 0)
      && WaitsBlocked(s, stops, e) + |was.waitQueue| == Woken(s, stops, e) + |now.waitQueue|
  {
    hide SchedInv, Pass, Signals, LetThrough, Blocked;
    InvSized(s);
    if stops != [] {
      var v := Passes(s, stops[..|stops| - 1]);
      SignalsAreKept(s, stops[..|stops| - 1], e);
      PassEvent(v, stops[|stops| - 1], e);
      NotBoth(v, stops[|stops| - 1], e);
    }
  }

  lemma NotBoth(s: Sched, stop: Stop, e: nat)
    requires SchedInv(s)
    ensures !(Signals(s, stop, e) && (LetThrough(s, stop, e) || Blocked(s, stop, e)))
  {}
}
