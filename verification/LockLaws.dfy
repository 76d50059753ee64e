/** Locks told by their fields and the queues alone: what each call leaves behind, and who holds a lock throughout
    a run. */
module LockLaws {
  import opened Basics
  import opened Scheduling
  import opened SchedulerInvariant
  import opened SchedulerRuns

  // ---- Being made ready (OS.cpp:359-365) -------------------------------------------------------------------

  /** The ready queue of a priority: 0 counts as 1, anything above 32 as 32. */
  function Level(priority: nat): nat {
    if priority == 0 then 1 else if priority > 32 then 32 else priority
  }

  /** Those of `who` that belong in queue p, in order. */
  function AtLevel(tasks: seq<Task>, who: seq<nat>, p: nat): seq<nat>
    requires Below(who, |tasks|)
  {
    if who == [] then []
    else (if Level(tasks[who[0]].priority) == p then [who[0]] else []) + AtLevel(tasks, who[1..], p)
  }

  /** From s to r these processes became Ready and were appended, in this order, to the ready queues of their
      priorities; no other process, and no sleeper, changed. */
  ghost predicate Readied(s: Sched, r: Sched, who: seq<nat>) {
    && Below(who, |s.tasks|) && |r.tasks| == |s.tasks| && |r.ready| == |s.ready| && r.sleeping == s.sleeping
    && (forall j | 0 <= j < |s.tasks| :: r.tasks[j] == if j in who then s.tasks[j].(state := Ready) else s.tasks[j])
    && (forall p | 0 <= p < |s.ready| :: r.ready[p] == s.ready[p] + AtLevel(s.tasks, who, p))
  }

  lemma ReadiedOne(s: Sched, i: nat)
    requires Sized(s) && i < |s.tasks|
    ensures Readied(s, Enqueue(s, i), [i])
    ensures Enqueue(s, i).locks == s.locks && Enqueue(s, i).events == s.events
  {
    forall p | 0 <= p < |s.ready| ensures Enqueue(s, i).ready[p] == s.ready[p] + AtLevel(s.tasks, [i], p) {
      assert [i][1..] == [];
    }
  }

  lemma ReadiedNone(s: Sched, r: Sched)
    requires r.tasks == s.tasks && r.ready == s.ready && r.sleeping == s.sleeping
    ensures Readied(s, r, [])
  {}

  lemma {:induction false} AtLevelAppend(tasks: seq<Task>, a: seq<nat>, b: seq<nat>, p: nat)
    requires Below(a, |tasks|) && Below(b, |tasks|)
    ensures Below(a + b, |tasks|) && AtLevel(tasks, a + b, p) == AtLevel(tasks, a, p) + AtLevel(tasks, b, p)
  {
    if a == [] {
      assert a + b == b;
    } else {
      AtLevelAppend(tasks, a[1..], b, p);
      assert (a + b)[1..] == a[1..] + b && (a + b)[0] == a[0];
      Regroup(if Level(tasks[a[0]].priority) == p then [a[0]] else [], AtLevel(tasks, a[1..], p), AtLevel(tasks, b, p));
    }
  }

  lemma {:induction false} AtLevelSame(a: seq<Task>, b: seq<Task>, who: seq<nat>, p: nat)
    requires Below(who, |a|) && |a| == |b| && forall j | 0 <= j < |a| :: a[j].priority == b[j].priority
    ensures AtLevel(a, who, p) == AtLevel(b, who, p)
  {
    if who != [] { AtLevelSame(a, b, who[1..], p); }
  }

  lemma ReadiedThen(s: Sched, r: Sched, t: Sched, a: seq<nat>, b: seq<nat>)
    requires Readied(s, r, a) && Readied(r, t, b)
    ensures Readied(s, t, a + b)
  {
    forall p | 0 <= p < |s.ready| ensures t.ready[p] == s.ready[p] + AtLevel(s.tasks, a + b, p) {
      AtLevelAppend(s.tasks, a, b, p);
      AtLevelSame(s.tasks, r.tasks, b, p);
    }
  }

  /** Readied looks at processes, ready queues and sleepers only. */
  lemma ReadiedFrom(s: Sched, v: Sched, r: Sched, who: seq<nat>)
    requires Readied(v, r, who) && v.tasks == s.tasks && v.ready == s.ready && v.sleeping == s.sleeping
    ensures Readied(s, r, who)
  {}

  // ---- One call ----------------------------------------------------------------------------------------------

  /** A free lock goes to the caller, who stays ready; for a held one the caller waits behind those who wait
      already; an id that names no lock changes no lock. */
  lemma AcquireLaw(s: Sched, i: nat, id: int)
    requires Sized(s) && QueuesOk(s) && i < |s.tasks|
    ensures var r, l := Handle(s, i, AcquireLock(id)), ToInt32(id);
      && Sized(r) && r.events == s.events
      && (forall k | 0 <= k < NUM_LOCKS && k != l :: r.locks[k] == s.locks[k])
      && (l < 0 || l >= 10 || !s.locks[l].held ==> Readied(s, r, [i]))
      && (0 <= l < 10 && !s.locks[l].held ==>
            r.locks[l].held && r.locks[l].ownerPid == s.tasks[i].pid && r.locks[l].waitQueue == s.locks[l].waitQueue)
      && (0 <= l < 10 && s.locks[l].held ==>
            && r.locks[l].held && r.locks[l].ownerPid == s.locks[l].ownerPid
            && r.locks[l].waitQueue == s.locks[l].waitQueue + [i]
            && r.ready == s.ready && r.sleeping == s.sleeping
            && r.tasks == s.tasks[i := s.tasks[i].(state := WaitingLock, waitingLockId := l)])
  {
    var l := ToInt32(id);
    if 0 <= l < 10 && !s.locks[l].held {
      var v := s.(requests := s.requests[l := s.requests[l] + [i]],
                  locks := s.locks[l := s.locks[l].(held := true, ownerPid := s.tasks[i].pid)],
                  grants := s.grants[l := s.grants[l] + [i]]);
      ReadiedOne(v, i);
      ReadiedFrom(s, v, Enqueue(v, i), [i]);
    } else {
      ReadiedOne(s, i);
    }
  }

  /** The owner's release makes the front waiter owner and ready, ahead of the caller, or frees the lock when nobody
      waits; anyone else's, or one of an id that names no lock, leaves every lock as it is. */
  lemma ReleaseLaw(s: Sched, i: nat, id: int)
    requires Sized(s) && QueuesOk(s) && i < |s.tasks|
    ensures var r, l := Handle(s, i, ReleaseLock(id)), ToInt32(id);
      var mine := 0 <= l < 10 && s.locks[l].held && s.locks[l].ownerPid == s.tasks[i].pid;
      && Sized(r) && r.events == s.events
      && (forall k | 0 <= k < NUM_LOCKS && k != l :: r.locks[k] == s.locks[k])
      && (!mine ==> r.locks == s.locks && Readied(s, r, [i]))
      && (mine && s.locks[l].waitQueue == [] ==> !r.locks[l].held && r.locks[l].waitQueue == [] && Readied(s, r, [i]))
      && (mine && s.locks[l].waitQueue != [] ==>
            var w := s.locks[l].waitQueue[0];
            && w < |s.tasks| && r.locks[l].held && r.locks[l].ownerPid == s.tasks[w].pid
            && r.locks[l].waitQueue == s.locks[l].waitQueue[1..] && Readied(s, r, [w, i]))
  {
    var l := ToInt32(id);
    if 0 <= l < 10 && s.locks[l].held && s.locks[l].ownerPid == s.tasks[i].pid {
      HandOverLaw(s, l);
      ReadiedOne(HandOver(s, l), i);
      if s.locks[l].waitQueue == [] {
        ReadiedThen(s, HandOver(s, l), Handle(s, i, ReleaseLock(id)), [], [i]);
        assert [] + [i] == [i];
      } else {
        var w := s.locks[l].waitQueue[0];
        ReadiedThen(s, HandOver(s, l), Handle(s, i, ReleaseLock(id)), [w], [i]);
        assert [w] + [i] == [w, i];
      }
    } else {
      ReadiedOne(s, i);
    }
  }

  lemma HandOverLaw(s: Sched, l: nat)
    requires Sized(s) && QueuesOk(s) && l < NUM_LOCKS
    ensures var r, q := HandOver(s, l), s.locks[l].waitQueue;
      && r.events == s.events && (forall k | 0 <= k < NUM_LOCKS && k != l :: r.locks[k] == s.locks[k])
      && (q == [] ==> !r.locks[l].held && r.locks[l].waitQueue == [] && Readied(s, r, []))
      && (q != [] ==> && q[0] < |s.tasks| && r.locks[l].held == s.locks[l].held
                      && r.locks[l].ownerPid == s.tasks[q[0]].pid && r.locks[l].waitQueue == q[1..]
                      && Readied(s, r, [q[0]]))
  {
    var q := s.locks[l].waitQueue;
    if q == [] {
      ReadiedNone(s, HandOver(s, l));
    } else {
      var v := s.(locks := s.locks[l := s.locks[l].(ownerPid := s.tasks[q[0]].pid, waitQueue := q[1..])],
                  grants := s.grants[l := s.grants[l] + [q[0]]]);
      ReadiedOne(v, q[0]);
      ReadiedFrom(s, v, Enqueue(v, q[0]), [q[0]]);
    }
  }

  /** The front waiters of the locks below n that pid owns. */
  function Heirs(s: Sched, pid: nat, n: nat): seq<nat>
    requires n <= |s.locks|
  {
    if n == 0 then []
    else
      var k := s.locks[n - 1];
      Heirs(s, pid, n - 1) + if k.held && k.ownerPid == pid && k.waitQueue != [] then [k.waitQueue[0]] else []
  }

  /** Lock l after its owner gave it up. */
  ghost predicate PassedOn(s: Sched, r: Sched, l: nat)
    requires l < |s.locks| && l < |r.locks|
  {
    var q := s.locks[l].waitQueue;
    && (q == [] ==> !r.locks[l].held && r.locks[l].waitQueue == [])
    && (q != [] ==> && q[0] < |s.tasks| && r.locks[l].held && r.locks[l].ownerPid == s.tasks[q[0]].pid
                    && r.locks[l].waitQueue == q[1..])
  }

  /** An exit gives up exactly the locks its process owned, each to its front waiter, who becomes ready, in the order of
      the locks. */
  lemma ExitLaw(s: Sched, i: nat)
    requires Sized(s) && QueuesOk(s) && i < |s.tasks|
    ensures var r, pid := Handle(s, i, Stop.Exit), s.tasks[i].pid;
      && Sized(r) && r.events == s.events
      && Readied(s.(tasks := s.tasks[i := s.tasks[i].(state := Terminated)]), r, Heirs(s, pid, 10))
      && (forall l: nat | l < 10 :: if s.locks[l].held && s.locks[l].ownerPid == pid then PassedOn(s, r, l)
                                    else r.locks[l] == s.locks[l])
  {
    hide ReleaseHeld, Readied, PassedOn, Heirs;
    var v, pid := SetState(s, i, Terminated), s.tasks[i].pid;
    ReleaseHeldLaw(v, pid, NUM_LOCKS);
    HeirsSame(s, v, pid, NUM_LOCKS);
    forall l: nat | l < 10 && s.locks[l].held && s.locks[l].ownerPid == pid ensures PassedOn(s, ReleaseHeld(v, pid, NUM_LOCKS), l) {
      PassedOnSame(s, v, ReleaseHeld(v, pid, NUM_LOCKS), l);
    }
  }

  lemma PassedOnSame(s: Sched, v: Sched, r: Sched, l: nat)
    requires l < |s.locks| && l < |r.locks| && v.locks == s.locks && |v.tasks| == |s.tasks|
    requires forall j | 0 <= j < |s.tasks| :: v.tasks[j].pid == s.tasks[j].pid
    requires PassedOn(v, r, l)
    ensures PassedOn(s, r, l)
  {}

  lemma {:induction false} HeirsSame(s: Sched, r: Sched, pid: nat, n: nat)
    requires n <= |s.locks| && r.locks == s.locks
    ensures Heirs(s, pid, n) == Heirs(r, pid, n)
  {
    if n > 0 { HeirsSame(s, r, pid, n - 1); }
  }

  lemma {:induction false} ReleaseHeldLaw(s: Sched, pid: nat, n: nat)
    requires Sized(s) && QueuesOk(s) && n <= NUM_LOCKS
    ensures var r := ReleaseHeld(s, pid, n);
      && r.events == s.events && Readied(s, r, Heirs(s, pid, n))
      && (forall l: nat | l < n :: if s.locks[l].held && s.locks[l].ownerPid == pid then PassedOn(s, r, l)
                                   else r.locks[l] == s.locks[l])
  {
    hide HandOver;
    if n == 0 {
      ReadiedNone(s, s);
    } else {
      ReleaseHeldLaw(s, pid, n - 1);
      var v, k := ReleaseHeld(s, pid, n - 1), n - 1;
      if v.locks[k].held && v.locks[k].ownerPid == pid {
        HandOverLaw(v, k);
        var q := v.locks[k].waitQueue;
        ReadiedThen(s, v, HandOver(v, k), Heirs(s, pid, k), if q == [] then [] else [q[0]]);
      } else {
        assert Heirs(s, pid, k) + [] == Heirs(s, pid, k);
      }
    }
  }

  // ---- Who holds a lock, throughout a run -----------------------------------------------------------------------

  /** The pid that holds lock l. */
  function Holder(s: Sched, l: nat): Option<nat>
    requires l < |s.locks|
  {
    if s.locks[l].held then Some(s.locks[l].ownerPid) else None
  }

  /** The process that gets the CPU in the next pass. */
  ghost function Chosen(s: Sched): (r: Option<nat>)
    requires SchedInv(s)
    ensures r.Some? ==> r.value < |s.tasks|
  {
    ServingQueues(s, {}, {});
    TickServes(s, |s.sleeping|);
    PickServes(Tick(s));
    PickNext(Tick(s)).1
  }

  /** The process of this pid gets the CPU, and stops with a release of lock l or with its exit. */
  ghost predicate GivesUp(s: Sched, stop: Stop, pid: nat, l: nat)
    requires SchedInv(s)
  {
    && Chosen(s).Some? && s.tasks[Chosen(s).value].pid == pid
    && (stop.Exit? || (stop.ReleaseLock? && ToInt32(stop.id) == l))
  }

  /** A tick and a pick change no lock, no event and no pid. */
  lemma {:induction false} TickManyKeeps(s: Sched, n: nat)
    requires Sized(s) && Below(s.sleeping, |s.tasks|)
    ensures var r := TickMany(s, n);
      && r.locks == s.locks && r.events == s.events && |r.tasks| == |s.tasks|
      && forall j | 0 <= j < |s.tasks| :: r.tasks[j].pid == s.tasks[j].pid && r.tasks[j].priority == s.tasks[j].priority
    decreases n
  {
    if n > 0 && s.sleeping != [] { TickManyKeeps(TickOne(s), n - 1); }
  }

  /** A pass serves the process chosen, in a state with the same locks, events, pids and priorities. */
  lemma PassServes(s: Sched, stop: Stop) returns (v: Sched)
    requires SchedInv(s)
    ensures Sized(s) && Sized(v) && QueuesOk(v) && v.locks == s.locks && v.events == s.events && |v.tasks| == |s.tasks|
    ensures forall j | 0 <= j < |s.tasks| :: v.tasks[j].pid == s.tasks[j].pid && v.tasks[j].priority == s.tasks[j].priority
    ensures Chosen(s).None? ==> SchedInv(v) && Pass(s, stop) == v
    ensures Chosen(s).Some? ==> Serving(v, {Chosen(s).value}, {}) && Pass(s, stop) == Handle(v, Chosen(s).value, stop)
  {
    ServingQueues(s, {}, {});
    TickServes(s, |s.sleeping|);
    TickManyKeeps(s, |s.sleeping|);
    PickServes(Tick(s));
    var (s1, next) := PickNext(Tick(s));
    v := s1;
    if next.Some? {
      var i := next.value;
      BusyRecord(s1, {i}, {}, i, s1.tasks[i].(state := Running));
      v := SetState(s1, i, Running);
      ServingQueues(v, {i}, {});
    } else {
      ServingQueues(s1, {}, {});
    }
  }

  /** A waiter is not the owner it waits for. */
  lemma WaiterIsNotOwner(s: Sched, busy: set<nat>, l: nat, i: nat)
    requires Serving(s, busy, {}) && l < NUM_LOCKS && s.locks[l].waitQueue != [] && i in busy
    ensures var w := s.locks[l].waitQueue[0]; w < |s.tasks| && i < |s.tasks| && s.tasks[w].pid != s.tasks[i].pid
  {
    BusyUnqueued(s, busy, {}, i);
    assert InLock(s, l, s.locks[l].waitQueue[0]);
    assert s.locks[l].waitQueue[0] != i;
  }

  /** Exclusion: a lock leaves its holder in a pass exactly when the holder itself gets the CPU and releases it or
      exits; it is then free or its front waiter's, and not the old holder's. A free lock is taken exactly by the
      process that gets the CPU and acquires it. */
  lemma LockChangesHands(s: Sched, stop: Stop, l: nat)
    requires SchedInv(s) && l < NUM_LOCKS
    ensures Sized(s) && var r := Pass(s, stop);
      && (forall p | Holder(s, l) == Some(p) :: Holder(r, l) != Some(p) <==> GivesUp(s, stop, p, l))
      && (forall p | Holder(s, l) == Some(p) && GivesUp(s, stop, p, l) ::
            && PassedOn(s, r, l)
            && (s.locks[l].waitQueue != [] ==> r.tasks[s.locks[l].waitQueue[0]].state == Ready))
      && (Holder(s, l).None? ==>
            if Chosen(s).Some? && stop.AcquireLock? && ToInt32(stop.id) == l
            then Holder(r, l) == Some(s.tasks[Chosen(s).value].pid) else Holder(r, l) == None)
  {
    var v := PassServes(s, stop);
    if Chosen(s).Some? {
      var i := Chosen(s).value;
      if s.locks[l].waitQueue != [] {
        WaiterIsNotOwner(v, {i}, l, i);
      }
      HolderAfter(v, i, stop, l);
    }
  }

  lemma HolderAfter(s: Sched, i: nat, stop: Stop, l: nat)
    requires Sized(s) && QueuesOk(s) && i < |s.tasks| && l < NUM_LOCKS && Fair(s, l, {})
    requires s.locks[l].waitQueue != [] ==> s.tasks[s.locks[l].waitQueue[0]].pid != s.tasks[i].pid
    ensures var r := Handle(s, i, stop);
      var gives := Holder(s, l) == Some(s.tasks[i].pid) && (stop.Exit? || (stop.ReleaseLock? && ToInt32(stop.id) == l));
      && Sized(r) && |r.tasks| == |s.tasks|
      && (gives ==> PassedOn(s, r, l) && (s.locks[l].waitQueue != [] ==> r.tasks[s.locks[l].waitQueue[0]].state == Ready))
      && (!gives && s.locks[l].held ==> Holder(r, l) == Holder(s, l))
      && (Holder(s, l).None? ==>
            Holder(r, l) == if stop.AcquireLock? && ToInt32(stop.id) == l then Some(s.tasks[i].pid) else None)
  {
    hide Readied;
    HandleKeepsTasks(s, i, stop);
    match stop
    case AcquireLock(id) => AcquireLaw(s, i, id);
    case ReleaseLock(id) =>
      ReleaseLaw(s, i, id);
      if s.locks[l].waitQueue != [] && ToInt32(id) == l && Holder(s, l) == Some(s.tasks[i].pid) {
        ReadiedMember(s, Handle(s, i, stop), [s.locks[l].waitQueue[0], i], 0);
      }
    case Exit =>
      ExitLaw(s, i);
      if s.locks[l].waitQueue != [] && Holder(s, l) == Some(s.tasks[i].pid) {
        var at := HeirAt(s, s.tasks[i].pid, 10, l);
        ReadiedMember(SetState(s, i, Terminated), Handle(s, i, stop), Heirs(s, s.tasks[i].pid, 10), at);
      }
    case Yield | Sleep(_) =>
    case WaitEvent(_) =>
    case SignalEvent(id) => SignalKeepsLocks(s, i, id);
  }

  lemma ReadiedMember(s: Sched, r: Sched, who: seq<nat>, k: nat)
    requires Readied(s, r, who) && k < |who|
    ensures who[k] < |s.tasks| && r.tasks[who[k]].state == Ready
  {}

  lemma {:induction false} HeirAt(s: Sched, pid: nat, n: nat, l: nat) returns (at: nat)
    requires l < n <= |s.locks| && s.locks[l].held && s.locks[l].ownerPid == pid && s.locks[l].waitQueue != []
    ensures at < |Heirs(s, pid, n)| && Heirs(s, pid, n)[at] == s.locks[l].waitQueue[0]
    decreases n
  {
    if l == n - 1 {
      at := |Heirs(s, pid, n)| - 1;
    } else {
      at := HeirAt(s, pid, n - 1, l);
    }
  }

  lemma {:induction false} WakeAllKeepsLocks(s: Sched, e: nat)
    requires Sized(s) && e < NUM_EVENTS && Below(s.events[e].waitQueue, |s.tasks|)
    ensures WakeAll(s, e).locks == s.locks
    decreases |s.events[e].waitQueue|
  {
    var q := s.events[e].waitQueue;
    if q != [] {
      WakeAllKeepsLocks(Enqueue(s.(events := s.events[e := s.events[e].(waitQueue := q[1..])]), q[0]), e);
    }
  }

  lemma SignalKeepsLocks(s: Sched, i: nat, id: int)
    requires Sized(s) && QueuesOk(s) && i < |s.tasks|
    ensures Signal(s, i, id).locks == s.locks
  {
    var e := ToInt32(id);
    if 0 <= e < NUM_EVENTS { WakeAllKeepsLocks(s, e); }
  }

  lemma InvSized(s: Sched)
    requires SchedInv(s)
    ensures Sized(s)
  {}

  /** At no point of this run does the process of this pid give lock l up. */
  ghost predicate NeverGivesUp(s: Sched, stops: seq<Stop>, pid: nat, l: nat)
    requires SchedInv(s)
  {
    stops == [] ||
    (NeverGivesUp(s, stops[..|stops| - 1], pid, l) && !GivesUp(Passes(s, stops[..|stops| - 1]), stops[|stops| - 1], pid, l))
  }

  /** Mutual exclusion over every run: whoever holds a lock is its only holder until it releases the lock itself or
      exits, whatever the others do. */
  lemma {:induction false} HeldUntilGivenUp(s: Sched, stops: seq<Stop>, pid: nat, l: nat)
    requires SchedInv(s) && l < NUM_LOCKS && Sized(s) && Holder(s, l) == Some(pid)
    ensures Sized(Passes(s, stops)) && (NeverGivesUp(s, stops, pid, l) ==> Holder(Passes(s, stops), l) == Some(pid))
  {
    hide SchedInv, Pass, GivesUp;
    InvSized(Passes(s, stops));
    if stops != [] {
      var before := stops[..|stops| - 1];
      HeldUntilGivenUp(s, before, pid, l);
      LockChangesHands(Passes(s, before), stops[|stops| - 1], l);
    }
  }
}
