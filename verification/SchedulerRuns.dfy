/** Whole runs of the scheduler loop: fairness of locks, when sleepers wake, and what it means when
    the loop ends. */
module SchedulerRuns {
  import opened Basics
  import opened Scheduling
  import opened SchedulerInvariant

  /** One pass of the loop body of run(): tick, pick, and serve whatever stops the process picked. */
  ghost function Pass(s: Sched, stop: Stop): (r: Sched)
    requires SchedInv(s)
    ensures SchedInv(r) && |r.tasks| == |s.tasks|
  {
    ServingQueues(s, {}, {});
    TickServes(s, |s.sleeping|);
    var (s1, next) := PickNext(Tick(s));
    if next.None? then s1
    else
      PickServes(Tick(s));
      var i := next.value;
      BusyRecord(s1, {i}, {}, i, s1.tasks[i].(state := Running));
      HandleServes(SetState(s1, i, Running), i, stop);
      HandleKeepsTasks(SetState(s1, i, Running), i, stop);
      Handle(SetState(s1, i, Running), i, stop)
  }

  lemma HandleKeepsTasks(s: Sched, i: nat, stop: Stop)
    requires Sized(s) && QueuesOk(s) && i < |s.tasks|
    ensures |Handle(s, i, stop).tasks| == |s.tasks|
  {}

  ghost function Passes(s: Sched, stops: seq<Stop>): (r: Sched)
    requires SchedInv(s)
    ensures SchedInv(r) && |r.tasks| == |s.tasks|
  {
    if stops == [] then s else Pass(Passes(s, stops[..|stops| - 1]), stops[|stops| - 1])
  }

  // ---- Where a process is ---------------------------------------------------------------------------

  /** A live process is in exactly one place, one of the ready, sleeping, lock and event queues, with
      the state that goes with it; a terminated one is in none. */
  lemma ExactlyOnePlace(s: Sched, i: nat)
    requires SchedInv(s) && i < |s.tasks|
    ensures Places(s, i) == if s.tasks[i].state == Terminated then 0 else 1
    ensures s.tasks[i].state == Ready <==> OccursIn(s.ready, i) == 1
    ensures s.tasks[i].state == WaitingSleep <==> Occurs(s.sleeping, i) == 1
    ensures s.tasks[i].state == WaitingLock <==> OccursIn(LockQueues(s), i) == 1
    ensures s.tasks[i].state == WaitingEvent <==> OccursIn(EventQueues(s), i) == 1
    ensures s.tasks[i].state in {Ready, WaitingSleep, WaitingLock, WaitingEvent, Terminated}
  {
    assert Placed(s, i, {});
    if OccursIn(s.ready, i) > 0 {
      var p := OccursSomewhere(s.ready, i);
      var k :| 0 <= k < |s.ready[p]| && s.ready[p][k] == i;
      assert InReady(s, p, s.ready[p][k]);
    }
    if OccursIn(LockQueues(s), i) > 0 {
      var l := OccursSomewhere(LockQueues(s), i);
      var k :| 0 <= k < |s.locks[l].waitQueue| && s.locks[l].waitQueue[k] == i;
      assert InLock(s, l, s.locks[l].waitQueue[k]);
    }
    if OccursIn(EventQueues(s), i) > 0 {
      var e := OccursSomewhere(EventQueues(s), i);
      var k :| 0 <= k < |s.events[e].waitQueue| && s.events[e].waitQueue[k] == i;
      assert InEvent(s, e, s.events[e].waitQueue[k]);
    }
    if Occurs(s.sleeping, i) > 0 {
      var k :| 0 <= k < |s.sleeping| && s.sleeping[k] == i;
    }
  }

  // ---- Locks ---------------------------------------------------------------------------------------

  /** In every reachable state each lock was granted in the order it was requested, the requests not
      granted yet are its wait queue in order, a lock with waiters is held, and a held lock's owner is
      the live process it was granted to last. */
  lemma LocksAreFifo(s: Sched, stops: seq<Stop>, l: nat)
    requires SchedInv(s) && l < NUM_LOCKS
    ensures var r := Passes(s, stops);
      && r.grants[l] <= r.requests[l]
      && r.requests[l][|r.grants[l]|..] == r.locks[l].waitQueue
      && (r.locks[l].waitQueue != [] ==> r.locks[l].held)
      && (r.locks[l].held ==> |r.grants[l]| > 0 && Alive(r, LastGrant(r, l))
                              && r.locks[l].ownerPid == r.tasks[LastGrant(r, l)].pid)
  {
    assert Fair(Passes(s, stops), l, {});
  }

  /** A signaled event has no waiters. */
  lemma SignaledMeansNoWaiters(s: Sched, stops: seq<Stop>, e: nat)
    requires SchedInv(s) && e < NUM_EVENTS
    ensures Passes(s, stops).events[e].signaled ==> Passes(s, stops).events[e].waitQueue == []
  {
    assert EventOk(Passes(s, stops), e);
  }

  // ---- When the loop ends ----------------------------------------------------------------------------

  /** Process i waits for a lock that process j owns. */
  ghost predicate WaitsFor(s: Sched, i: nat, j: nat) {
    && Alive(s, i) && Alive(s, j)
    && exists l :: 0 <= l < |s.locks| && i in s.locks[l].waitQueue && s.locks[l].held && s.locks[l].ownerPid == s.tasks[j].pid
  }

  ghost predicate Cycle(s: Sched, c: seq<nat>) {
    c != [] && forall k | 0 <= k < |c| :: WaitsFor(s, c[k], c[if k + 1 < |c| then k + 1 else 0])
  }

  /** What run() sees when it returns: nobody ready and nobody asleep. */
  ghost predicate Finished(s: Sched) {
    s.sleeping == [] && forall p | 0 <= p < |s.ready| :: s.ready[p] == []
  }

  lemma EveryoneWaits(s: Sched, i: nat) returns (j: nat)
    requires SchedInv(s) && Finished(s) && Alive(s, i)
    requires forall e | 0 <= e < NUM_EVENTS :: s.events[e].waitQueue == []
    ensures WaitsFor(s, i, j)
  {
    assert Placed(s, i, {});
    NoQueues(s.ready, i);
    NoQueues(EventQueues(s), i);
    var l := OccursSomewhere(LockQueues(s), i);
    assert LockQueues(s)[l] == s.locks[l].waitQueue;
    assert Fair(s, l, {});
    j := LastGrant(s, l);
  }

  /** Follow the owners n times. */
  lemma {:induction false} FollowOwners(s: Sched, i: nat, n: nat) returns (path: seq<nat>)
    requires SchedInv(s) && Finished(s) && Alive(s, i)
    requires forall e | 0 <= e < NUM_EVENTS :: s.events[e].waitQueue == []
    ensures |path| == n + 1 && path[0] == i
    ensures forall k | 0 <= k < n :: WaitsFor(s, path[k], path[k + 1])
    ensures forall k | 0 <= k <= n :: Alive(s, path[k])
    decreases n
  {
    if n == 0 {
      path := [i];
    } else {
      var j := EveryoneWaits(s, i);
      var rest := FollowOwners(s, j, n - 1);
      path := [i] + rest;
    }
  }

  /** When run() returns with nobody waiting for an event, either every process has terminated or some
      processes wait for each other's locks in a cycle. */
  lemma FinishedOrDeadlocked(s: Sched)
    requires SchedInv(s) && Finished(s)
    requires forall e | 0 <= e < NUM_EVENTS :: s.events[e].waitQueue == []
    ensures (forall i | 0 <= i < |s.tasks| :: s.tasks[i].state == Terminated) || exists c :: Cycle(s, c)
  {
    if i :| 0 <= i < |s.tasks| && s.tasks[i].state != Terminated {
      var n := |s.tasks|;
      var path := FollowOwners(s, i, n);
      if NoDup(path) {
        NoDupBound(path, n);
        assert false;
      }
      var a, b :| 0 <= a < b < |path| && path[a] == path[b];
      var c := path[a..b];
      forall k | 0 <= k < |c| ensures WaitsFor(s, c[k], c[if k + 1 < |c| then k + 1 else 0]) {
        assert WaitsFor(s, path[a + k], path[a + k + 1]);
      }
      assert Cycle(s, c);
    }
  }

  /** Whoever is in a ready queue is Ready, whoever sleeps is WaitingSleep. */
  lemma QueuedStates(s: Sched)
    requires SchedInv(s)
    ensures forall p, i | 0 <= p < |s.ready| && i in s.ready[p] :: i < |s.tasks| && s.tasks[i].state == Ready
    ensures forall i | i in s.sleeping :: i < |s.tasks| && s.tasks[i].state == WaitingSleep
  {
    forall p, i | 0 <= p < |s.ready| && i in s.ready[p] ensures i < |s.tasks| && s.tasks[i].state == Ready {
      var q :| 0 <= q < |s.ready[p]| && s.ready[p][q] == i;
      assert InReady(s, p, s.ready[p][q]);
    }
  }

  /** And such a cycle never resolves itself: nobody on it is ready or asleep, so nobody runs. */
  lemma CycleIsStuck(s: Sched, c: seq<nat>, k: nat)
    requires SchedInv(s) && Cycle(s, c) && k < |c|
    ensures c[k] < |s.tasks| && s.tasks[c[k]].state == WaitingLock
    ensures c[k] !in s.sleeping && forall p | 0 <= p < |s.ready| :: c[k] !in s.ready[p]
  {
    var i := c[k];
    assert WaitsFor(s, i, c[if k + 1 < |c| then k + 1 else 0]);
    var l :| 0 <= l < |s.locks| && i in s.locks[l].waitQueue;
    var m :| 0 <= m < |s.locks[l].waitQueue| && s.locks[l].waitQueue[m] == i;
    assert InLock(s, l, s.locks[l].waitQueue[m]);
    QueuedStates(s);
  }

  // ---- Sleepers --------------------------------------------------------------------------------------

  /** The sleepers of q that the next tick does not wake. */
  function Stay(tasks: seq<Task>, q: seq<nat>): seq<nat>
    requires Below(q, |tasks|)
  {
    if q == [] then []
    else if tasks[q[0]].sleepCounter > 1 then [q[0]] + Stay(tasks, q[1..])
    else Stay(tasks, q[1..])
  }

  lemma {:induction false} StaySame(a: seq<Task>, b: seq<Task>, q: seq<nat>)
    requires Below(q, |a|) && Below(q, |b|) && forall k | 0 <= k < |q| :: a[q[k]] == b[q[k]]
    ensures Stay(a, q) == Stay(b, q)
  {
    if q != [] {
      StaySame(a, b, q[1..]);
    }
  }

  lemma OccursTwice(q: seq<nat>, a: nat, b: nat)
    requires a < b < |q|
    ensures q[a] == q[b] ==> Occurs(q, q[a]) >= 2
  {
    assert q == q[..b] + ([q[b]] + q[b + 1..]);
    assert q[..b][a] == q[a];
  }

  lemma SleepersDistinct(s: Sched)
    requires SchedInv(s)
    ensures NoDup(s.sleeping)
  {
    forall a, b | 0 <= a < b < |s.sleeping| ensures s.sleeping[a] != s.sleeping[b] {
      assert Placed(s, s.sleeping[a], {});
      OccursTwice(s.sleeping, a, b);
    }
  }

  /** n turns of the tick loop: each sleeper looked at is counted down by one, and those at one or
      below are made ready; nobody else changes. */
  lemma {:induction false} TickManyTasks(s: Sched, n: nat, i: nat)
    requires SchedInv(s) && n <= |s.sleeping| && Below(s.sleeping, |s.tasks|) && i < |s.tasks|
    ensures var c := s.tasks[i].sleepCounter;
      TickMany(s, n).tasks[i] ==
        if i !in s.sleeping[..n] then s.tasks[i]
        else if c > 1 then s.tasks[i].(sleepCounter := c - 1)
        else s.tasks[i].(sleepCounter := 0, state := Ready)
    decreases n
  {
    hide SchedInv, TickOne, Enqueue;
    InvQueues(s);
    if n > 0 {
      var j, q, v := s.sleeping[0], s.sleeping, TickOne(s);
      TickOneServes(s);
      SleepersDistinct(s);
      InvQueues(v);
      TickOneTasks(s, i);
      TickManyTasks(v, n - 1, i);
      assert q[1..][..n - 1] == q[1..n] && v.sleeping[..n - 1] == q[1..n];
      assert q[..n] == [j] + q[1..n];
      assert j !in q[1..n];
    }
  }

  lemma InvQueues(s: Sched)
    requires SchedInv(s)
    ensures Sized(s) && Below(s.sleeping, |s.tasks|)
  {
    ServingQueues(s, {}, {});
  }

  /** One turn of it. */
  lemma TickOneTasks(s: Sched, i: nat)
    requires Sized(s) && s.sleeping != [] && Below(s.sleeping, |s.tasks|) && i < |s.tasks|
    requires s.tasks[s.sleeping[0]].state == WaitingSleep
    ensures var c, v := s.tasks[i].sleepCounter, TickOne(s);
      && |v.tasks| == |s.tasks|
      && v.tasks[i] == (if i != s.sleeping[0] then s.tasks[i]
                        else if c > 1 then s.tasks[i].(sleepCounter := c - 1)
                        else s.tasks[i].(sleepCounter := 0, state := Ready))
      && (v.sleeping == s.sleeping[1..] || v.sleeping == s.sleeping[1..] + [s.sleeping[0]])
  {}

  lemma TickOneOrder(s: Sched, n: nat)
    requires SchedInv(s) && 0 < n <= |s.sleeping| && Below(s.sleeping, |s.tasks|)
    ensures var q, v := s.sleeping, TickOne(s);
      var stay := if s.tasks[q[0]].sleepCounter > 1 then [q[0]] else [];
      && SchedInv(v) && Below(v.sleeping, |v.tasks|)
      && n - 1 <= |v.sleeping| && v.sleeping[..n - 1] == q[1..n] && v.sleeping[n - 1..] == q[n..] + stay
      && Stay(v.tasks, q[1..n]) == Stay(s.tasks, q[1..n])
      && Stay(s.tasks, q[..n]) == stay + Stay(s.tasks, q[1..n])
  {
    var q, v := s.sleeping, TickOne(s);
    TickOneServes(s);
    SleepersDistinct(s);
    ServingQueues(v, {}, {});
    var rest := q[1..n];
    assert q[1..][..n - 1] == rest && q[1..][n - 1..] == q[n..];
    assert q[..n][1..] == rest;
    forall k | 0 <= k < |rest| ensures v.tasks[rest[k]] == s.tasks[rest[k]] {
      assert rest[k] == q[k + 1] && q[0] != q[k + 1];
    }
    StaySame(v.tasks, s.tasks, rest);
  }

  lemma TickManyNext(s: Sched, n: nat)
    requires Sized(s) && Below(s.sleeping, |s.tasks|) && 0 < n <= |s.sleeping|
    ensures TickMany(s, n) == TickMany(TickOne(s), n - 1)
  {
    hide TickOne;
  }

  lemma Regroup(a: seq<nat>, b: seq<nat>, c: seq<nat>)
    ensures (a + b) + c == a + (b + c)
  {}

  /** The sleepers looked at who stay move behind the others, in order. */
  lemma {:induction false} TickManyOrder(s: Sched, n: nat)
    requires SchedInv(s) && n <= |s.sleeping| && Below(s.sleeping, |s.tasks|)
    ensures TickMany(s, n).sleeping == s.sleeping[n..] + Stay(s.tasks, s.sleeping[..n])
    decreases n
  {
    hide SchedInv, TickOne;
    InvQueues(s);
    if n == 0 {
      assert s.sleeping[0..] == s.sleeping && s.sleeping[..0] == [];
    } else {
      hide Stay, TickMany;
      var q, v := s.sleeping, TickOne(s);
      TickOneOrder(s, n);
      TickManyOrder(v, n - 1);
      TickManyNext(s, n);
      Regroup(q[n..], if s.tasks[q[0]].sleepCounter > 1 then [q[0]] else [], Stay(s.tasks, q[1..n]));
    }
  }

  /** One tick: the sleepers that stay keep their order, the rest are ready. */
  lemma TickKeepsOrder(s: Sched)
    requires SchedInv(s)
    ensures Below(s.sleeping, |s.tasks|) && Tick(s).sleeping == Stay(s.tasks, s.sleeping)
  {
    ServingQueues(s, {}, {});
    TickManyOrder(s, |s.sleeping|);
    assert s.sleeping[..|s.sleeping|] == s.sleeping;
  }

  lemma TickSleeper(s: Sched, i: nat)
    requires SchedInv(s) && i in s.sleeping
    ensures Below(s.sleeping, |s.tasks|) && i < |s.tasks| && SchedInv(Tick(s))
    ensures var c := s.tasks[i].sleepCounter;
      if c > 1 then i in Tick(s).sleeping && Tick(s).tasks[i] == s.tasks[i].(sleepCounter := c - 1)
      else i !in Tick(s).sleeping && Tick(s).tasks[i].state == Ready
  {
    ServingQueues(s, {}, {});
    QueuedStates(s);
    TickManyTasks(s, |s.sleeping|, i);
    assert s.sleeping[..|s.sleeping|] == s.sleeping;
    TickServes(s, |s.sleeping|);
    SleeperIff(Tick(s), i);
  }

  lemma SleeperIff(s: Sched, i: nat)
    requires SchedInv(s) && i < |s.tasks|
    ensures i in s.sleeping <==> s.tasks[i].state == WaitingSleep
  {
    ExactlyOnePlace(s, i);
  }

  /** Serving one process leaves every sleeper asleep with the same count. */
  lemma HandleSparesSleepers(s: Sched, i: nat, stop: Stop, j: nat)
    requires Serving(s, {i}, {}) && QueuesOk(s) && j in s.sleeping && j < |s.tasks|
    ensures j in Handle(s, i, stop).sleeping && j < |Handle(s, i, stop).tasks| && Handle(s, i, stop).tasks[j] == s.tasks[j]
  {
    BusyUnqueued(s, {i}, {}, i);
    var at :| 0 <= at < |s.sleeping| && s.sleeping[at] == j;
    assert j != i && s.tasks[j].state == WaitingSleep;
    match stop
    case ReleaseLock(id) =>
      var l := ToInt32(id);
      if 0 <= l < NUM_LOCKS && s.locks[l].waitQueue != [] { assert InLock(s, l, s.locks[l].waitQueue[0]); }
    case SignalEvent(id) =>
      var e := ToInt32(id);
      if 0 <= e < NUM_EVENTS { WakeAllSparesSleepers(s, {i}, e, j); }
    case Exit =>
      TerminateServes(s, i);
      TerminateSparesSleepers(s, i, j);
    case _ =>
  }

  lemma {:induction false} WakeAllSparesSleepers(s: Sched, busy: set<nat>, e: nat, j: nat)
    requires Serving(s, busy, {}) && QueuesOk(s) && e < NUM_EVENTS && j in s.sleeping && j < |s.tasks|
    ensures WakeAll(s, e).sleeping == s.sleeping && WakeAll(s, e).tasks[j] == s.tasks[j]
    decreases |s.events[e].waitQueue|
  {
    var q := s.events[e].waitQueue;
    if q != [] {
      var at :| 0 <= at < |s.sleeping| && s.sleeping[at] == j;
      assert InEvent(s, e, s.events[e].waitQueue[0]);
      var s1 := s.(events := s.events[e := s.events[e].(waitQueue := q[1..])]);
      WakeOneServes(s, busy, e);
      ServingQueues(Enqueue(s1, q[0]), busy, {});
      WakeAllSparesSleepers(Enqueue(s1, q[0]), busy, e, j);
    }
  }

  lemma TerminateSparesSleepers(s: Sched, i: nat, j: nat)
    requires Serving(s, {i}, {}) && QueuesOk(s) && j in s.sleeping && j < |s.tasks| && i != j
    ensures j in Terminate(s, i).sleeping && Terminate(s, i).tasks[j] == s.tasks[j]
  {
    var s1 := SetState(s, i, Terminated);
    TerminatingServes(s, i);
    ReleaseHeldSparesSleepers(s1, i, NUM_LOCKS, j);
  }

  lemma {:induction false} ReleaseHeldSparesSleepers(s: Sched, i: nat, n: nat, j: nat)
    requires Serving(s, {}, {i}) && QueuesOk(s) && i < |s.tasks| && s.tasks[i].state == Terminated && n <= NUM_LOCKS
    requires j in s.sleeping && j < |s.tasks|
    ensures var r := ReleaseHeld(s, s.tasks[i].pid, n); r.sleeping == s.sleeping && r.tasks[j] == s.tasks[j]
  {
    hide Serving, HandOver, QueuesOk;
    ServingSized(s, {}, {i});
    if n > 0 {
      ReleaseHeldSparesSleepers(s, i, n - 1, j);
      ReleaseHeldServes(s, i, n - 1);
      HandOverSparesSleepers(ReleaseHeld(s, s.tasks[i].pid, n - 1), {i}, n - 1, j);
    }
  }

  lemma HandOverSparesSleepers(s: Sched, dying: set<nat>, l: nat, j: nat)
    requires Serving(s, {}, dying) && QueuesOk(s) && l < NUM_LOCKS && j in s.sleeping && j < |s.tasks|
    ensures HandOver(s, l).sleeping == s.sleeping && HandOver(s, l).tasks[j] == s.tasks[j]
  {
    var at :| 0 <= at < |s.sleeping| && s.sleeping[at] == j;
    if s.locks[l].waitQueue != [] { assert InLock(s, l, s.locks[l].waitQueue[0]); }
  }

  lemma PassSleeper(s: Sched, stop: Stop, i: nat)
    requires SchedInv(s) && i in s.sleeping && i < |s.tasks| && s.tasks[i].sleepCounter > 1
    ensures i in Pass(s, stop).sleeping
    ensures Pass(s, stop).tasks[i].sleepCounter == s.tasks[i].sleepCounter - 1
  {
    TickSleeper(s, i);
    var v := Tick(s);
    var (s1, next) := PickNext(v);
    if next.Some? {
      PickServes(v);
      var j := next.value;
      var at :| 0 <= at < |v.sleeping| && v.sleeping[at] == i;
      BusyRecord(s1, {j}, {}, j, s1.tasks[j].(state := Running));
      ServingQueues(SetState(s1, j, Running), {j}, {});
      HandleSparesSleepers(SetState(s1, j, Running), j, stop, i);
    }
  }

  /** A process that goes to sleep with counter c sleeps through every pass before the max(1, c)-th,
      whatever the other processes do, and the tick of that pass makes it ready. */
  lemma {:induction false} SleepsExactly(s: Sched, i: nat, stops: seq<Stop>)
    requires SchedInv(s) && i in s.sleeping && i < |s.tasks|
    requires |stops| < (if s.tasks[i].sleepCounter > 1 then s.tasks[i].sleepCounter else 1)
    ensures var c, r := s.tasks[i].sleepCounter, Passes(s, stops);
      && i in r.sleeping && r.tasks[i].sleepCounter == c - |stops|
      && Below(r.sleeping, |r.tasks|)
      && (Tick(r).tasks[i].state == Ready <==> |stops| + 1 == if c > 1 then c else 1)
  {
    if stops != [] {
      SleepsExactly(s, i, stops[..|stops| - 1]);
      PassSleeper(Passes(s, stops[..|stops| - 1]), stops[|stops| - 1], i);
    }
    TickSleeper(Passes(s, stops), i);
    SleeperIff(Tick(Passes(s, stops)), i);
  }

  /** The counter a Sleep trap sets: one for a count of zero or less, else the count's low 32 bits. */
  lemma SleepSets(s: Sched, i: nat, count: int)
    requires Serving(s, {i}, {})
    ensures var r := GoToSleep(s, i, count);
      && SchedInv(r) && i in r.sleeping
      && r.tasks[i].sleepCounter == if count <= 0 then 1 else count % WORD_RANGE
  {
    HandleServes(s, i, Sleep(count));
    assert GoToSleep(s, i, count).sleeping[|s.sleeping|] == i;
  }

  // ---- The idle spin ----------------------------------------------------------------------------------

  /** The ticks after which the first sleeper is due. */
  function Soonest(tasks: seq<Task>, q: seq<nat>): nat
    requires Below(q, |tasks|) && q != []
  {
    var c := tasks[q[0]].sleepCounter;
    if |q| == 1 then c
    else
      var rest := Soonest(tasks, q[1..]);
      if c < rest then c else rest
  }

  lemma {:induction false} SoonestMember(tasks: seq<Task>, q: seq<nat>) returns (k: nat)
    requires Below(q, |tasks|) && q != []
    ensures k < |q| && tasks[q[k]].sleepCounter == Soonest(tasks, q)
    ensures forall j | 0 <= j < |q| :: Soonest(tasks, q) <= tasks[q[j]].sleepCounter
  {
    k := 0;
    if |q| > 1 {
      var r := SoonestMember(tasks, q[1..]);
      if tasks[q[0]].sleepCounter >= Soonest(tasks, q[1..]) { k := r + 1; }
      forall j | 0 <= j < |q| ensures Soonest(tasks, q) <= tasks[q[j]].sleepCounter {
        if j > 0 { assert q[1..][j - 1] == q[j]; }
      }
    }
  }

  /** While nobody is ready a tick either makes somebody ready or brings the first sleeper closer, so
      the idle spin of run() ends. */
  lemma IdleTickProgress(s: Sched)
    requires SchedInv(s) && s.sleeping != []
    ensures Below(s.sleeping, |s.tasks|)
    ensures var r := Tick(s);
      || PickNext(r).1.Some?
      || (r.sleeping != [] && Below(r.sleeping, |r.tasks|)
          && Soonest(r.tasks, r.sleeping) < Soonest(s.tasks, s.sleeping))
  {
    ServingQueues(s, {}, {});
    TickServes(s, |s.sleeping|);
    ServingQueues(Tick(s), {}, {});
    var k := SoonestMember(s.tasks, s.sleeping);
    var i, r := s.sleeping[k], Tick(s);
    TickSleeper(s, i);
    if s.tasks[i].sleepCounter > 1 {
      var at :| 0 <= at < |r.sleeping| && r.sleeping[at] == i;
      var j := SoonestMember(r.tasks, r.sleeping);
    } else {
      ExactlyOnePlace(r, i);
      var p := OccursSomewhere(r.ready, i);
      var at :| 0 <= at < |r.ready[p]| && r.ready[p][at] == i;
      assert InReady(r, p, r.ready[p][at]);
    }
  }
}
