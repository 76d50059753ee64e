/** Every live process is in exactly one place, locks are exclusive and first come first served, and
    what it means when the scheduler runs out of work. */
module SchedulerInvariant {
  import opened Basics
  import opened Scheduling

  // ---- Counting occurrences -----------------------------------------------------------------------

  function Occurs(q: seq<nat>, i: nat): nat {
    multiset(q)[i]
  }

  function OccursIn(qs: seq<seq<nat>>, i: nat): nat {
    if qs == [] then 0 else Occurs(qs[0], i) + OccursIn(qs[1..], i)
  }

  function LockQueues(s: Sched): seq<seq<nat>> {
    seq(|s.locks|, l requires 0 <= l < |s.locks| => s.locks[l].waitQueue)
  }

  function EventQueues(s: Sched): seq<seq<nat>> {
    seq(|s.events|, e requires 0 <= e < |s.events| => s.events[e].waitQueue)
  }

  /** In how many places process i waits. */
  function Places(s: Sched, i: nat): nat {
    OccursIn(s.ready, i) + Occurs(s.sleeping, i) + OccursIn(LockQueues(s), i) + OccursIn(EventQueues(s), i)
  }

  lemma {:induction false} OccursUpdate(qs: seq<seq<nat>>, k: nat, q: seq<nat>, i: nat)
    requires k < |qs|
    ensures OccursIn(qs[k := q], i) + Occurs(qs[k], i) == OccursIn(qs, i) + Occurs(q, i)
  {
    var r := qs[k := q];
    if k == 0 {
      assert r[1..] == qs[1..];
    } else {
      assert r[1..] == qs[1..][k - 1 := q];
      OccursUpdate(qs[1..], k - 1, q, i);
    }
  }

  lemma {:induction false} OccursMember(qs: seq<seq<nat>>, k: nat, i: nat)
    requires k < |qs| && i in qs[k]
    ensures OccursIn(qs, i) > 0
  {
    if k > 0 {
      OccursMember(qs[1..], k - 1, i);
    }
  }

  lemma {:induction false} OccursSomewhere(qs: seq<seq<nat>>, i: nat) returns (k: nat)
    requires OccursIn(qs, i) > 0
    ensures k < |qs| && i in qs[k]
  {
    if i in qs[0] {
      k := 0;
    } else {
      k := OccursSomewhere(qs[1..], i);
      k := k + 1;
    }
  }

  lemma OccursPop(q: seq<nat>, i: nat)
    requires q != []
    ensures Occurs(q, i) == Occurs(q[1..], i) + (if i == q[0] then 1 else 0)
  {
    assert q == [q[0]] + q[1..];
  }

  lemma OccursPush(q: seq<nat>, x: nat, i: nat)
    ensures Occurs(q + [x], i) == Occurs(q, i) + (if i == x then 1 else 0)
  {}

  // ---- The invariant ----------------------------------------------------------------------------------

  predicate Alive(s: Sched, i: nat) {
    i < |s.tasks| && s.tasks[i].state != Terminated
  }

  /** Process i is in as many places as it should be: one if it is live and not being served. */
  ghost predicate Placed(s: Sched, i: nat, busy: set<nat>) {
    Places(s, i) == if Alive(s, i) && i !in busy then 1 else 0
  }

  ghost predicate InReady(s: Sched, p: nat, i: nat) {
    i < |s.tasks| && s.tasks[i].state == Ready && Clamp(s.tasks[i].priority) == p
  }

  ghost predicate InLock(s: Sched, l: nat, i: nat) {
    i < |s.tasks| && s.tasks[i].state == WaitingLock && s.tasks[i].waitingLockId == l
  }

  ghost predicate InEvent(s: Sched, e: nat, i: nat) {
    i < |s.tasks| && s.tasks[i].state == WaitingEvent && s.tasks[i].waitingEventId == e
  }

  /** Whoever is queued is in the state that queue is for. */
  ghost predicate Matching(s: Sched) {
    && (forall p, k | 0 <= p < |s.ready| && 0 <= k < |s.ready[p]| :: InReady(s, p, s.ready[p][k]))
    && (forall k | 0 <= k < |s.sleeping| :: s.sleeping[k] < |s.tasks| && s.tasks[s.sleeping[k]].state == WaitingSleep)
    && (forall l, k | 0 <= l < |s.locks| && 0 <= k < |s.locks[l].waitQueue| :: InLock(s, l, s.locks[l].waitQueue[k]))
    && (forall e, k | 0 <= e < |s.events| && 0 <= k < |s.events[e].waitQueue| :: InEvent(s, e, s.events[e].waitQueue[k]))
  }

  function LastGrant(s: Sched, l: nat): nat
    requires Sized(s) && l < NUM_LOCKS && |s.grants[l]| > 0
  {
    s.grants[l][|s.grants[l]| - 1]
  }

  /** A held lock belongs to the live process it was granted to last, only a held lock has waiters, and
      it is granted in the order it is requested; `dying` are processes whose locks are being given up. */
  ghost predicate Fair(s: Sched, l: nat, dying: set<nat>)
    requires Sized(s) && l < NUM_LOCKS
  {
    && s.requests[l] == s.grants[l] + s.locks[l].waitQueue
    && (s.locks[l].waitQueue != [] ==> s.locks[l].held)
    && (s.locks[l].held ==>
          && |s.grants[l]| > 0
          && var o := LastGrant(s, l);
             (Alive(s, o) || o in dying) && o < |s.tasks| && s.tasks[o].pid == s.locks[l].ownerPid)
  }

  ghost predicate EventOk(s: Sched, e: nat)
    requires Sized(s) && e < NUM_EVENTS
  {
    s.events[e].signaled ==> s.events[e].waitQueue == []
  }

  ghost predicate DistinctPids(s: Sched) {
    forall i, j | 0 <= i < j < |s.tasks| :: s.tasks[i].pid != s.tasks[j].pid
  }

  /** The invariant while the processes in `busy` are being served and in no queue. */
  ghost predicate Serving(s: Sched, busy: set<nat>, dying: set<nat>) {
    && Sized(s) && DistinctPids(s) && Matching(s)
    && (forall i: nat :: Placed(s, i, busy))
    && (forall l | 0 <= l < NUM_LOCKS :: Fair(s, l, dying))
    && (forall e | 0 <= e < NUM_EVENTS :: EventOk(s, e))
    && (forall i | i in busy :: Alive(s, i))
  }

  /** The invariant at the head of the scheduler loop. */
  ghost predicate SchedInv(s: Sched) {
    Serving(s, {}, {})
  }

  lemma ServingSized(s: Sched, busy: set<nat>, dying: set<nat>)
    requires Serving(s, busy, dying)
    ensures Sized(s)
  {}

  lemma ServingQueues(s: Sched, busy: set<nat>, dying: set<nat>)
    requires Serving(s, busy, dying)
    ensures QueuesOk(s)
  {
    forall l | 0 <= l < |s.locks| ensures Below(s.locks[l].waitQueue, |s.tasks|) {
      forall k | 0 <= k < |s.locks[l].waitQueue| ensures s.locks[l].waitQueue[k] < |s.tasks| {
        assert InLock(s, l, s.locks[l].waitQueue[k]);
      }
    }
    forall e | 0 <= e < |s.events| ensures Below(s.events[e].waitQueue, |s.tasks|) {
      forall k | 0 <= k < |s.events[e].waitQueue| ensures s.events[e].waitQueue[k] < |s.tasks| {
        assert InEvent(s, e, s.events[e].waitQueue[k]);
      }
    }
  }

  // ---- Elementary moves ------------------------------------------------------------------------------------

  /** A busy process is in no queue. */
  lemma BusyUnqueued(s: Sched, busy: set<nat>, dying: set<nat>, i: nat)
    requires Serving(s, busy, dying) && i in busy
    ensures NowhereQueued(s, i)
  {
    assert Placed(s, i, busy);
    forall p, k | 0 <= p < |s.ready| && 0 <= k < |s.ready[p]| ensures s.ready[p][k] != i {
      if s.ready[p][k] == i { OccursMember(s.ready, p, i); }
    }
    forall l, k | 0 <= l < |s.locks| && 0 <= k < |s.locks[l].waitQueue| ensures s.locks[l].waitQueue[k] != i {
      if s.locks[l].waitQueue[k] == i {
        assert LockQueues(s)[l] == s.locks[l].waitQueue;
        OccursMember(LockQueues(s), l, i);
      }
    }
    forall e, k | 0 <= e < |s.events| && 0 <= k < |s.events[e].waitQueue| ensures s.events[e].waitQueue[k] != i {
      if s.events[e].waitQueue[k] == i {
        assert EventQueues(s)[e] == s.events[e].waitQueue;
        OccursMember(EventQueues(s), e, i);
      }
    }
  }

  ghost predicate NowhereQueued(s: Sched, i: nat) {
    && (forall p, k | 0 <= p < |s.ready| && 0 <= k < |s.ready[p]| :: s.ready[p][k] != i)
    && (forall k | 0 <= k < |s.sleeping| :: s.sleeping[k] != i)
    && (forall l, k | 0 <= l < |s.locks| && 0 <= k < |s.locks[l].waitQueue| :: s.locks[l].waitQueue[k] != i)
    && (forall e, k | 0 <= e < |s.events| && 0 <= k < |s.events[e].waitQueue| :: s.events[e].waitQueue[k] != i)
  }

  /** The record of a busy process can change while it stays alive under its pid. */
  lemma BusyRecord(s: Sched, busy: set<nat>, dying: set<nat>, i: nat, t: Task)
    requires Serving(s, busy, dying) && i in busy && t.pid == s.tasks[i].pid && t.state != Terminated
    ensures Serving(s.(tasks := s.tasks[i := t]), busy, dying)
  {
    var r := s.(tasks := s.tasks[i := t]);
    BusyUnqueued(s, busy, dying, i);
    MatchingAfter(s, r, i);
    assert LockQueues(r) == LockQueues(s) && EventQueues(r) == EventQueues(s);
    forall j: nat ensures Placed(r, j, busy) { assert Placed(s, j, busy); }
    forall l | 0 <= l < NUM_LOCKS ensures Fair(r, l, dying) { assert Fair(s, l, dying); }
    forall e | 0 <= e < NUM_EVENTS ensures EventOk(r, e) { assert EventOk(s, e); }
  }

  /** Queues that lose members, and records of unqueued processes that change, keep the match. */
  lemma MatchingAfter(s: Sched, r: Sched, i: nat)
    requires Matching(s) && NowhereQueued(s, i)
    requires r.ready == s.ready && r.sleeping == s.sleeping && r.locks == s.locks && r.events == s.events
    requires |r.tasks| == |s.tasks| && forall j | 0 <= j < |s.tasks| && j != i :: r.tasks[j] == s.tasks[j]
    ensures Matching(r)
  {
    forall p, k | 0 <= p < |r.ready| && 0 <= k < |r.ready[p]| ensures InReady(r, p, r.ready[p][k]) {
      assert InReady(s, p, s.ready[p][k]);
    }
    forall l, k | 0 <= l < |r.locks| && 0 <= k < |r.locks[l].waitQueue| ensures InLock(r, l, r.locks[l].waitQueue[k]) {
      assert InLock(s, l, s.locks[l].waitQueue[k]);
    }
    forall e, k | 0 <= e < |r.events| && 0 <= k < |r.events[e].waitQueue| ensures InEvent(r, e, r.events[e].waitQueue[k]) {
      assert InEvent(s, e, s.events[e].waitQueue[k]);
    }
  }

  /** A busy process in state Ready joins its ready queue. */
  lemma PushReady(s: Sched, busy: set<nat>, dying: set<nat>, i: nat)
    requires Serving(s, busy, dying) && i in busy && s.tasks[i].state == Ready
    ensures var p := Clamp(s.tasks[i].priority);
            Serving(s.(ready := s.ready[p := s.ready[p] + [i]]), busy - {i}, dying)
  {
    var p := Clamp(s.tasks[i].priority);
    var r := s.(ready := s.ready[p := s.ready[p] + [i]]);
    assert LockQueues(r) == LockQueues(s) && EventQueues(r) == EventQueues(s);
    forall j: nat ensures Placed(r, j, busy - {i}) {
      assert Placed(s, j, busy);
      OccursUpdate(s.ready, p, s.ready[p] + [i], j);
      OccursPush(s.ready[p], i, j);
    }
    forall q, k | 0 <= q < |r.ready| && 0 <= k < |r.ready[q]| ensures InReady(r, q, r.ready[q][k]) {
      if k < |s.ready[q]| { assert InReady(s, q, s.ready[q][k]); }
    }
    SameLocks(s, r, dying);
  }

  lemma SameLocks(s: Sched, r: Sched, dying: set<nat>)
    requires Sized(s) && Sized(r) && r.tasks == s.tasks && r.locks == s.locks && r.events == s.events
    requires r.requests == s.requests && r.grants == s.grants
    requires forall l | 0 <= l < NUM_LOCKS :: Fair(s, l, dying)
    requires forall e | 0 <= e < NUM_EVENTS :: EventOk(s, e)
    requires forall l, k | 0 <= l < |s.locks| && 0 <= k < |s.locks[l].waitQueue| :: InLock(s, l, s.locks[l].waitQueue[k])
    requires forall e, k | 0 <= e < |s.events| && 0 <= k < |s.events[e].waitQueue| :: InEvent(s, e, s.events[e].waitQueue[k])
    ensures forall l | 0 <= l < NUM_LOCKS :: Fair(r, l, dying)
    ensures forall e | 0 <= e < NUM_EVENTS :: EventOk(r, e)
    ensures forall l, k | 0 <= l < |r.locks| && 0 <= k < |r.locks[l].waitQueue| :: InLock(r, l, r.locks[l].waitQueue[k])
    ensures forall e, k | 0 <= e < |r.events| && 0 <= k < |r.events[e].waitQueue| :: InEvent(r, e, r.events[e].waitQueue[k])
  {
    forall l | 0 <= l < NUM_LOCKS ensures Fair(r, l, dying) { assert Fair(s, l, dying); }
    forall e | 0 <= e < NUM_EVENTS ensures EventOk(r, e) { assert EventOk(s, e); }
    forall l, k | 0 <= l < |r.locks| && 0 <= k < |r.locks[l].waitQueue| ensures InLock(r, l, r.locks[l].waitQueue[k]) {
      assert InLock(s, l, s.locks[l].waitQueue[k]);
    }
    forall e, k | 0 <= e < |r.events| && 0 <= k < |r.events[e].waitQueue| ensures InEvent(r, e, r.events[e].waitQueue[k]) {
      assert InEvent(s, e, s.events[e].waitQueue[k]);
    }
  }

  lemma EnqueueServes(s: Sched, busy: set<nat>, dying: set<nat>, i: nat)
    requires Serving(s, busy, dying) && i in busy
    ensures Serving(Enqueue(s, i), busy - {i}, dying)
  {
    BusyRecord(s, busy, dying, i, s.tasks[i].(state := Ready));
    PushReady(SetState(s, i, Ready), busy, dying, i);
  }

  lemma PopReady(s: Sched, busy: set<nat>, dying: set<nat>, p: nat)
    requires Serving(s, busy, dying) && p < |s.ready| && s.ready[p] != []
    ensures var i := s.ready[p][0];
      && i !in busy && InReady(s, p, i)
      && Serving(s.(ready := s.ready[p := s.ready[p][1..]]), busy + {i}, dying)
  {
    var i := s.ready[p][0];
    var r := s.(ready := s.ready[p := s.ready[p][1..]]);
    assert InReady(s, p, i);
    assert LockQueues(r) == LockQueues(s) && EventQueues(r) == EventQueues(s);
    OccursMember(s.ready, p, i);
    assert Placed(s, i, busy);
    forall j: nat ensures Placed(r, j, busy + {i}) {
      assert Placed(s, j, busy);
      OccursUpdate(s.ready, p, s.ready[p][1..], j);
      OccursPop(s.ready[p], j);
    }
    forall q, k | 0 <= q < |r.ready| && 0 <= k < |r.ready[q]| ensures InReady(r, q, r.ready[q][k]) {
      assert InReady(s, q, s.ready[q][if q == p then k + 1 else k]);
    }
    SameLocks(s, r, dying);
  }

  lemma PushSleeping(s: Sched, busy: set<nat>, dying: set<nat>, i: nat)
    requires Serving(s, busy, dying) && i in busy && s.tasks[i].state == WaitingSleep
    ensures Serving(s.(sleeping := s.sleeping + [i]), busy - {i}, dying)
  {
    var r := s.(sleeping := s.sleeping + [i]);
    assert LockQueues(r) == LockQueues(s) && EventQueues(r) == EventQueues(s);
    forall j: nat ensures Placed(r, j, busy - {i}) {
      assert Placed(s, j, busy);
      OccursPush(s.sleeping, i, j);
    }
    forall p, k | 0 <= p < |r.ready| && 0 <= k < |r.ready[p]| ensures InReady(r, p, r.ready[p][k]) {
      assert InReady(s, p, s.ready[p][k]);
    }
    SameLocks(s, r, dying);
  }

  lemma PopSleeping(s: Sched, busy: set<nat>, dying: set<nat>)
    requires Serving(s, busy, dying) && s.sleeping != []
    ensures var i := s.sleeping[0];
      && i !in busy && i < |s.tasks| && s.tasks[i].state == WaitingSleep
      && Serving(s.(sleeping := s.sleeping[1..]), busy + {i}, dying)
  {
    var i := s.sleeping[0];
    var r := s.(sleeping := s.sleeping[1..]);
    assert LockQueues(r) == LockQueues(s) && EventQueues(r) == EventQueues(s);
    OccursPop(s.sleeping, i);
    assert Placed(s, i, busy);
    forall j: nat ensures Placed(r, j, busy + {i}) {
      assert Placed(s, j, busy);
      OccursPop(s.sleeping, j);
    }
    forall p, k | 0 <= p < |r.ready| && 0 <= k < |r.ready[p]| ensures InReady(r, p, r.ready[p][k]) {
      assert InReady(s, p, s.ready[p][k]);
    }
    SameLocks(s, r, dying);
  }

  /** Everything but lock l is as before. */
  lemma LockMoved(s: Sched, r: Sched, l: nat, busy: set<nat>, busy': set<nat>, dying: set<nat>)
    requires Serving(s, busy, dying) && l < NUM_LOCKS && Sized(r)
    requires r == s.(locks := r.locks, requests := r.requests, grants := r.grants)
    requires forall k | 0 <= k < NUM_LOCKS && k != l ::
               r.locks[k] == s.locks[k] && r.requests[k] == s.requests[k] && r.grants[k] == s.grants[k]
    requires Fair(r, l, dying)
    requires forall k | 0 <= k < |r.locks[l].waitQueue| :: InLock(r, l, r.locks[l].waitQueue[k])
    requires forall i | i in busy' :: Alive(s, i)
    requires forall i: nat :: Occurs(r.locks[l].waitQueue, i) - Occurs(s.locks[l].waitQueue, i)
                              == (if Alive(s, i) && i !in busy' then 1 else 0) - (if Alive(s, i) && i !in busy then 1 else 0)
    ensures Serving(r, busy', dying)
  {
    forall i: nat ensures Placed(r, i, busy') {
      assert Placed(s, i, busy);
      assert LockQueues(r) == LockQueues(s)[l := r.locks[l].waitQueue] && EventQueues(r) == EventQueues(s);
      OccursUpdate(LockQueues(s), l, r.locks[l].waitQueue, i);
    }
    forall p, k | 0 <= p < |r.ready| && 0 <= k < |r.ready[p]| ensures InReady(r, p, r.ready[p][k]) {
      assert InReady(s, p, s.ready[p][k]);
    }
    forall m, k | 0 <= m < |r.locks| && 0 <= k < |r.locks[m].waitQueue| ensures InLock(r, m, r.locks[m].waitQueue[k]) {
      if m != l { assert InLock(s, m, s.locks[m].waitQueue[k]); }
    }
    forall e, k | 0 <= e < |r.events| && 0 <= k < |r.events[e].waitQueue| ensures InEvent(r, e, r.events[e].waitQueue[k]) {
      assert InEvent(s, e, s.events[e].waitQueue[k]);
    }
    forall m | 0 <= m < NUM_LOCKS ensures Fair(r, m, dying) {
      if m != l { assert Fair(s, m, dying); }
    }
    forall e | 0 <= e < NUM_EVENTS ensures EventOk(r, e) { assert EventOk(s, e); }
  }

  /** A free lock is taken at once: requested and granted. */
  lemma GrantFree(s: Sched, busy: set<nat>, dying: set<nat>, i: nat, l: nat)
    requires Serving(s, busy, dying) && i in busy && l < NUM_LOCKS && !s.locks[l].held
    ensures Serving(s.(requests := s.requests[l := s.requests[l] + [i]],
                       locks := s.locks[l := s.locks[l].(held := true, ownerPid := s.tasks[i].pid)],
                       grants := s.grants[l := s.grants[l] + [i]]), busy, dying)
  {
    assert Fair(s, l, dying);
    var r := s.(requests := s.requests[l := s.requests[l] + [i]],
                locks := s.locks[l := s.locks[l].(held := true, ownerPid := s.tasks[i].pid)],
                grants := s.grants[l := s.grants[l] + [i]]);
    assert s.requests[l] == s.grants[l];
    LockMoved(s, r, l, busy, busy, dying);
  }

  /** A busy process waiting for a held lock joins the back of its queue. */
  lemma PushLock(s: Sched, busy: set<nat>, dying: set<nat>, i: nat, l: nat)
    requires Serving(s, busy, dying) && i in busy && l < NUM_LOCKS && s.locks[l].held
    requires s.tasks[i].state == WaitingLock && s.tasks[i].waitingLockId == l
    ensures Serving(s.(requests := s.requests[l := s.requests[l] + [i]],
                       locks := s.locks[l := s.locks[l].(waitQueue := s.locks[l].waitQueue + [i])]), busy - {i}, dying)
  {
    assert Fair(s, l, dying);
    var r := s.(requests := s.requests[l := s.requests[l] + [i]],
                locks := s.locks[l := s.locks[l].(waitQueue := s.locks[l].waitQueue + [i])]);
    assert r.requests[l] == r.grants[l] + r.locks[l].waitQueue;
    forall j: nat ensures Occurs(r.locks[l].waitQueue, j) == Occurs(s.locks[l].waitQueue, j) + (if j == i then 1 else 0) {
      OccursPush(s.locks[l].waitQueue, i, j);
    }
    forall k | 0 <= k < |r.locks[l].waitQueue| ensures InLock(r, l, r.locks[l].waitQueue[k]) {
      if k < |s.locks[l].waitQueue| { assert InLock(s, l, s.locks[l].waitQueue[k]); }
    }
    LockMoved(s, r, l, busy, busy - {i}, dying);
  }

  /** A lock with waiters passes to the front one. */
  lemma PopLock(s: Sched, busy: set<nat>, dying: set<nat>, l: nat)
    requires Serving(s, busy, dying) && l < NUM_LOCKS && s.locks[l].waitQueue != []
    ensures var q := s.locks[l].waitQueue;
      && q[0] < |s.tasks| && q[0] !in busy && Alive(s, q[0])
      && Serving(s.(locks := s.locks[l := s.locks[l].(ownerPid := s.tasks[q[0]].pid, waitQueue := q[1..])],
                    grants := s.grants[l := s.grants[l] + [q[0]]]), busy + {q[0]}, dying)
  {
    var q := s.locks[l].waitQueue;
    var i := q[0];
    assert InLock(s, l, s.locks[l].waitQueue[0]);
    assert Fair(s, l, dying);
    var r := s.(locks := s.locks[l := s.locks[l].(ownerPid := s.tasks[i].pid, waitQueue := q[1..])],
                grants := s.grants[l := s.grants[l] + [i]]);
    assert r.grants[l] + r.locks[l].waitQueue == s.grants[l] + q;
    assert LockQueues(s)[l] == q;
    OccursMember(LockQueues(s), l, i);
    assert Placed(s, i, busy);
    forall j: nat ensures Occurs(r.locks[l].waitQueue, j) == Occurs(s.locks[l].waitQueue, j) - (if j == i then 1 else 0) {
      OccursPop(q, j);
    }
    forall k | 0 <= k < |r.locks[l].waitQueue| ensures InLock(r, l, r.locks[l].waitQueue[k]) {
      assert InLock(s, l, s.locks[l].waitQueue[k + 1]);
    }
    LockMoved(s, r, l, busy, busy + {i}, dying);
  }

  lemma FreeLock(s: Sched, busy: set<nat>, dying: set<nat>, l: nat)
    requires Serving(s, busy, dying) && l < NUM_LOCKS && s.locks[l].waitQueue == []
    ensures Serving(s.(locks := s.locks[l := Lock(false, 0, [])]), busy, dying)
  {
    assert Fair(s, l, dying);
    LockMoved(s, s.(locks := s.locks[l := Lock(false, 0, [])]), l, busy, busy, dying);
  }

  lemma HandOverServes(s: Sched, busy: set<nat>, dying: set<nat>, l: nat)
    requires Serving(s, busy, dying) && l < NUM_LOCKS
    ensures QueuesOk(s) && Serving(HandOver(s, l), busy, dying)
    ensures forall i | i in busy :: HandOver(s, l).tasks[i] == s.tasks[i]
    ensures var r := HandOver(s, l); r.locks[l].held ==>
              exists i | 0 <= i < |s.tasks| :: Alive(s, i) && s.tasks[i].pid == r.locks[l].ownerPid
  {
    ServingQueues(s, busy, dying);
    var q := s.locks[l].waitQueue;
    if q == [] {
      FreeLock(s, busy, dying, l);
    } else {
      PopLock(s, busy, dying, l);
      var s1 := s.(locks := s.locks[l := s.locks[l].(ownerPid := s.tasks[q[0]].pid, waitQueue := q[1..])],
                   grants := s.grants[l := s.grants[l] + [q[0]]]);
      EnqueueServes(s1, busy + {q[0]}, dying, q[0]);
      assert busy + {q[0]} - {q[0]} == busy;
    }
  }

  // ---- Events --------------------------------------------------------------------------------------------

  lemma EventMoved(s: Sched, r: Sched, e: nat, busy: set<nat>, busy': set<nat>, dying: set<nat>)
    requires Serving(s, busy, dying) && e < NUM_EVENTS && Sized(r) && r == s.(events := r.events)
    requires forall k | 0 <= k < NUM_EVENTS && k != e :: r.events[k] == s.events[k]
    requires EventOk(r, e)
    requires forall k | 0 <= k < |r.events[e].waitQueue| :: InEvent(r, e, r.events[e].waitQueue[k])
    requires forall i | i in busy' :: Alive(s, i)
    requires forall i: nat :: Occurs(r.events[e].waitQueue, i) - Occurs(s.events[e].waitQueue, i)
                              == (if Alive(s, i) && i !in busy' then 1 else 0) - (if Alive(s, i) && i !in busy then 1 else 0)
    ensures Serving(r, busy', dying)
  {
    forall i: nat ensures Placed(r, i, busy') {
      assert Placed(s, i, busy);
      assert EventQueues(r) == EventQueues(s)[e := r.events[e].waitQueue] && LockQueues(r) == LockQueues(s);
      OccursUpdate(EventQueues(s), e, r.events[e].waitQueue, i);
    }
    forall p, k | 0 <= p < |r.ready| && 0 <= k < |r.ready[p]| ensures InReady(r, p, r.ready[p][k]) {
      assert InReady(s, p, s.ready[p][k]);
    }
    forall l, k | 0 <= l < |r.locks| && 0 <= k < |r.locks[l].waitQueue| ensures InLock(r, l, r.locks[l].waitQueue[k]) {
      assert InLock(s, l, s.locks[l].waitQueue[k]);
    }
    forall m, k | 0 <= m < |r.events| && 0 <= k < |r.events[m].waitQueue| ensures InEvent(r, m, r.events[m].waitQueue[k]) {
      if m != e { assert InEvent(s, m, s.events[m].waitQueue[k]); }
    }
    forall l | 0 <= l < NUM_LOCKS ensures Fair(r, l, dying) { assert Fair(s, l, dying); }
    forall m | 0 <= m < NUM_EVENTS ensures EventOk(r, m) {
      if m != e { assert EventOk(s, m); }
    }
  }

  lemma {:induction false} WakeAllServes(s: Sched, busy: set<nat>, e: nat)
    requires Serving(s, busy, {}) && e < NUM_EVENTS
    ensures QueuesOk(s) && Serving(WakeAll(s, e), busy, {})
    ensures forall i | i in busy :: WakeAll(s, e).tasks[i] == s.tasks[i]
    decreases |s.events[e].waitQueue|
  {
    ServingQueues(s, busy, {});
    var q := s.events[e].waitQueue;
    if q != [] {
      WakeOneServes(s, busy, e);
      WakeAllServes(Enqueue(s.(events := s.events[e := s.events[e].(waitQueue := q[1..])]), q[0]), busy, e);
    }
  }

  /** The front waiter of an event leaves its queue for the ready queue. */
  lemma WakeOneServes(s: Sched, busy: set<nat>, e: nat)
    requires Serving(s, busy, {}) && e < NUM_EVENTS && s.events[e].waitQueue != []
    ensures var q := s.events[e].waitQueue;
      && q[0] < |s.tasks| && q[0] !in busy
      && Serving(Enqueue(s.(events := s.events[e := s.events[e].(waitQueue := q[1..])]), q[0]), busy, {})
  {
    var q := s.events[e].waitQueue;
    var i := q[0];
    var s1 := s.(events := s.events[e := s.events[e].(waitQueue := q[1..])]);
    assert InEvent(s, e, s.events[e].waitQueue[0]) && EventOk(s, e);
    assert EventQueues(s)[e] == q;
    OccursMember(EventQueues(s), e, i);
    assert Placed(s, i, busy);
    forall j: nat ensures Occurs(q[1..], j) == Occurs(q, j) - (if j == i then 1 else 0) { OccursPop(q, j); }
    forall k | 0 <= k < |s1.events[e].waitQueue| ensures InEvent(s1, e, s1.events[e].waitQueue[k]) {
      assert InEvent(s, e, s.events[e].waitQueue[k + 1]);
    }
    EventMoved(s, s1, e, busy, busy + {i}, {});
    EnqueueServes(s1, busy + {i}, {}, i);
    assert busy + {i} - {i} == busy;
  }

  // ---- Every operation of the loop ---------------------------------------------------------------------------

  /** The tick keeps the invariant, so no sleeper is ever dropped by its state test. */
  lemma {:induction false} TickServes(s: Sched, n: nat)
    requires SchedInv(s)
    ensures Below(s.sleeping, |s.tasks|) && SchedInv(TickMany(s, n))
    decreases n
  {
    ServingQueues(s, {}, {});
    if n > 0 && s.sleeping != [] {
      TickOneServes(s);
      TickServes(TickOne(s), n - 1);
    }
  }

  lemma TickOneServes(s: Sched)
    requires SchedInv(s) && s.sleeping != [] && Below(s.sleeping, |s.tasks|)
    ensures SchedInv(TickOne(s)) && s.tasks[s.sleeping[0]].state == WaitingSleep
  {
    var i := s.sleeping[0];
    PopSleeping(s, {}, {});
    var s1 := s.(sleeping := s.sleeping[1..]);
    var c := s.tasks[i].sleepCounter;
    var t := s1.tasks[i].(sleepCounter := if c > 0 then c - 1 else c);
    assert {} + {i} == {i} && {i} - {i} == {};
    BusyRecord(s1, {i}, {}, i, t);
    var s2 := s1.(tasks := s1.tasks[i := t]);
    if t.sleepCounter == 0 {
      EnqueueServes(s2, {i}, {}, i);
    } else {
      PushSleeping(s2, {i}, {}, i);
    }
  }

  /** Level p is the first with anyone ready, and i is in front of its queue. */
  predicate FirstInLine(s: Sched, p: nat, i: nat)
    requires Sized(s)
  {
    1 <= p <= LOWEST && s.ready[p] != [] && s.ready[p][0] == i && forall q | 1 <= q < p :: s.ready[q] == []
  }

  /** Exactly the front of the first non-empty ready queue is taken out. That process is Ready: the guard against
      picking a terminated one never fires. Nobody is picked only if the queues of all 32 levels are empty. */
  lemma PickServes(s: Sched)
    requires SchedInv(s)
    ensures Sized(s)
    ensures var (r, i) := PickNext(s); var p := FirstReady(s.ready, 1);
      && (i.Some? ==> FirstInLine(s, p, i.value) && r == s.(ready := s.ready[p := s.ready[p][1..]])
                      && i.value < |s.tasks| && s.tasks[i.value].state == Ready && Serving(r, {i.value}, {}))
      && (i.None? ==> r == s && forall q | 1 <= q <= LOWEST :: s.ready[q] == [])
  {
    var p := FirstReady(s.ready, 1);
    if p <= LOWEST {
      PopReady(s, {}, {}, p);
      assert {} + {s.ready[p][0]} == {s.ready[p][0]};
    }
  }

  lemma {:induction false} ReleaseHeldServes(s: Sched, i: nat, n: nat)
    requires Serving(s, {}, {i}) && i < |s.tasks| && s.tasks[i].state == Terminated && n <= NUM_LOCKS
    ensures QueuesOk(s)
    ensures var r := ReleaseHeld(s, s.tasks[i].pid, n); Serving(r, {}, {i}) && i < |r.tasks| && r.tasks[i] == s.tasks[i]
  {
    hide Serving, HandOver;
    ServingSized(s, {}, {i});
    ServingQueues(s, {}, {i});
    if n > 0 {
      ReleaseHeldServes(s, i, n - 1);
      var r := ReleaseHeld(s, s.tasks[i].pid, n - 1);
      if r.locks[n - 1].held && r.locks[n - 1].ownerPid == s.tasks[i].pid {
        HandOverServes(r, {}, {i}, n - 1);
        HandOverSpares(r, {i}, n - 1, i);
      }
    }
  }

  /** Locks below n do not belong to the terminated process any more. */
  lemma {:induction false} ReleaseHeldFrees(s: Sched, i: nat, n: nat, l: nat)
    requires Serving(s, {}, {i}) && QueuesOk(s) && i < |s.tasks| && s.tasks[i].state == Terminated && l < n <= NUM_LOCKS
    ensures var r := ReleaseHeld(s, s.tasks[i].pid, n); r.locks[l].held ==> r.locks[l].ownerPid != s.tasks[i].pid
  {
    var r := ReleaseHeld(s, s.tasks[i].pid, n - 1);
    if l < n - 1 {
      ReleaseHeldFrees(s, i, n - 1, l);
    } else {
      ReleaseHeldServes(s, i, n - 1);
      HandOverSpares(r, {i}, n - 1, i);
    }
  }

  /** Handing a lock over does not touch a process that is in no queue. */
  lemma HandOverSpares(s: Sched, dying: set<nat>, l: nat, i: nat)
    requires Serving(s, {}, dying) && QueuesOk(s) && l < NUM_LOCKS && i < |s.tasks| && s.tasks[i].state == Terminated
    ensures HandOver(s, l).tasks[i] == s.tasks[i]
    ensures HandOver(s, l).locks[l].held ==> HandOver(s, l).locks[l].ownerPid != s.tasks[i].pid
  {
    if s.locks[l].waitQueue != [] {
      assert InLock(s, l, s.locks[l].waitQueue[0]);
    }
  }

  /** A terminated process is in no queue, but still owns its locks. */
  lemma TerminatingServes(s: Sched, i: nat)
    requires Serving(s, {i}, {})
    ensures QueuesOk(s) && QueuesOk(SetState(s, i, Terminated)) && Serving(SetState(s, i, Terminated), {}, {i})
  {
    var s1 := SetState(s, i, Terminated);
    ServingQueues(s, {i}, {});
    BusyUnqueued(s, {i}, {}, i);
    MatchingAfter(s, s1, i);
    assert LockQueues(s1) == LockQueues(s) && EventQueues(s1) == EventQueues(s);
    forall j: nat ensures Placed(s1, j, {}) { assert Placed(s, j, {i}); }
    forall l | 0 <= l < NUM_LOCKS ensures Fair(s1, l, {i}) { assert Fair(s, l, {}); }
    forall e | 0 <= e < NUM_EVENTS ensures EventOk(s1, e) { assert EventOk(s, e); }
    ServingQueues(s1, {}, {i});
  }

  /** After the lock loop no lock waits for the dead process any more. */
  lemma TerminateServes(s: Sched, i: nat)
    requires Serving(s, {i}, {})
    ensures QueuesOk(s) && SchedInv(Terminate(s, i)) && !Alive(Terminate(s, i), i)
    ensures forall l | 0 <= l < NUM_LOCKS ::
              Terminate(s, i).locks[l].held ==> Terminate(s, i).locks[l].ownerPid != s.tasks[i].pid
  {
    var s1, pid := SetState(s, i, Terminated), s.tasks[i].pid;
    TerminatingServes(s, i);
    ReleaseHeldServes(s1, i, NUM_LOCKS);
    var r := ReleaseHeld(s1, pid, NUM_LOCKS);
    forall l | 0 <= l < NUM_LOCKS ensures r.locks[l].held ==> r.locks[l].ownerPid != pid {
      ReleaseHeldFrees(s1, i, NUM_LOCKS, l);
    }
    forall l | 0 <= l < NUM_LOCKS ensures Fair(r, l, {}) { assert Fair(r, l, {i}); }
  }

  lemma AcquireServes(s: Sched, i: nat, id: int)
    requires Serving(s, {i}, {})
    ensures SchedInv(Acquire(s, i, id))
  {
    var l := ToInt32(id);
    assert {i} - {i} == {};
    if l < 0 || l >= NUM_LOCKS {
      EnqueueServes(s, {i}, {}, i);
    } else if !s.locks[l].held {
      GrantFree(s, {i}, {}, i, l);
      EnqueueServes(s.(requests := s.requests[l := s.requests[l] + [i]],
                       locks := s.locks[l := s.locks[l].(held := true, ownerPid := s.tasks[i].pid)],
                       grants := s.grants[l := s.grants[l] + [i]]), {i}, {}, i);
    } else {
      var t := s.tasks[i].(state := WaitingLock, waitingLockId := l);
      BusyRecord(s, {i}, {}, i, t);
      PushLock(s.(tasks := s.tasks[i := t]), {i}, {}, i, l);
    }
  }

  lemma WaitServes(s: Sched, i: nat, id: int)
    requires Serving(s, {i}, {})
    ensures SchedInv(Wait(s, i, id))
  {
    var e := ToInt32(id);
    assert {i} - {i} == {};
    if e < 0 || e >= NUM_EVENTS {
      EnqueueServes(s, {i}, {}, i);
    } else if s.events[e].signaled {
      assert EventOk(s, e);
      var s1 := s.(events := s.events[e := s.events[e].(signaled := false)]);
      EventMoved(s, s1, e, {i}, {i}, {});
      EnqueueServes(s1, {i}, {}, i);
    } else {
      var t := s.tasks[i].(state := WaitingEvent, waitingEventId := e);
      BusyRecord(s, {i}, {}, i, t);
      var s1 := s.(tasks := s.tasks[i := t]);
      var s2 := s1.(events := s1.events[e := s1.events[e].(waitQueue := s1.events[e].waitQueue + [i])]);
      forall j: nat ensures Occurs(s2.events[e].waitQueue, j) == Occurs(s1.events[e].waitQueue, j) + (if j == i then 1 else 0) {
        OccursPush(s1.events[e].waitQueue, i, j);
      }
      forall k | 0 <= k < |s2.events[e].waitQueue| ensures InEvent(s2, e, s2.events[e].waitQueue[k]) {
        if k < |s1.events[e].waitQueue| { assert InEvent(s1, e, s1.events[e].waitQueue[k]); }
      }
      EventMoved(s1, s2, e, {i}, {}, {});
    }
  }

  lemma SignalServes(s: Sched, i: nat, id: int)
    requires Serving(s, {i}, {})
    ensures QueuesOk(s) && SchedInv(Signal(s, i, id))
  {
    ServingQueues(s, {i}, {});
    var e := ToInt32(id);
    assert {i} - {i} == {};
    if e < 0 || e >= NUM_EVENTS {
      EnqueueServes(s, {i}, {}, i);
    } else if s.events[e].waitQueue != [] {
      WakeAllServes(s, {i}, e);
      EnqueueServes(WakeAll(s, e), {i}, {}, i);
    } else {
      var s1 := s.(events := s.events[e := s.events[e].(signaled := true)]);
      EventMoved(s, s1, e, {i}, {i}, {});
      EnqueueServes(s1, {i}, {}, i);
    }
  }

  lemma ReleaseServes(s: Sched, i: nat, id: int)
    requires Serving(s, {i}, {})
    ensures QueuesOk(s) && SchedInv(Release(s, i, id))
  {
    ServingQueues(s, {i}, {});
    var l := ToInt32(id);
    assert {i} - {i} == {};
    if 0 <= l < NUM_LOCKS && s.locks[l].held && s.locks[l].ownerPid == s.tasks[i].pid {
      HandOverServes(s, {i}, {}, l);
      EnqueueServes(HandOver(s, l), {i}, {}, i);
    } else {
      EnqueueServes(s, {i}, {}, i);
    }
  }

  /** Whatever made the running process stop, the loop head invariant holds again afterwards. */
  lemma HandleServes(s: Sched, i: nat, stop: Stop)
    requires Serving(s, {i}, {})
    ensures QueuesOk(s) && SchedInv(Handle(s, i, stop))
  {
    ServingQueues(s, {i}, {});
    assert {i} - {i} == {};
    match stop
    case Yield => EnqueueServes(s, {i}, {}, i);
    case Sleep(count) =>
      var t := s.tasks[i].(state := WaitingSleep, sleepCounter := if count <= 0 then 1 else ToWord(count));
      BusyRecord(s, {i}, {}, i, t);
      PushSleeping(s.(tasks := s.tasks[i := t]), {i}, {}, i);
    case AcquireLock(id) => AcquireServes(s, i, id);
    case ReleaseLock(id) => ReleaseServes(s, i, id);
    case WaitEvent(id) => WaitServes(s, i, id);
    case SignalEvent(id) => SignalServes(s, i, id);
    case Exit => TerminateServes(s, i);
  }

  /** A new process enters the back of the ready queue of its priority, cut to the 32 there are, and no other
      queue; nobody else is affected. */
  lemma AdmitServes(s: Sched, pid: nat, priority: nat)
    requires SchedInv(s) && forall i | 0 <= i < |s.tasks| :: s.tasks[i].pid != pid
    ensures SchedInv(Admit(s, pid, priority)) && Sized(s)
    ensures var r, n, p := Admit(s, pid, priority), |s.tasks|, if priority < 1 then 1 else if priority > 32 then 32 else priority;
      && |r.tasks| == n + 1 && r.tasks[..n] == s.tasks && r.tasks[n].pid == pid && r.tasks[n].priority == priority
      && r.ready[p] == s.ready[p] + [n] && (forall q | 0 <= q <= LOWEST && q != p :: r.ready[q] == s.ready[q])
      && (r.sleeping, r.locks, r.events) == (s.sleeping, s.locks, s.events)
      && r.tasks[n].state == Ready
  {
    var n := |s.tasks|;
    var s1 := s.(tasks := s.tasks + [Task(pid, priority, Ready, 0, -1, -1)]);
    assert LockQueues(s1) == LockQueues(s) && EventQueues(s1) == EventQueues(s);
    forall j: nat ensures Placed(s1, j, {n}) { assert Placed(s, j, {}); }
    forall p, k | 0 <= p < |s1.ready| && 0 <= k < |s1.ready[p]| ensures InReady(s1, p, s1.ready[p][k]) {
      assert InReady(s, p, s.ready[p][k]);
    }
    forall l, k | 0 <= l < |s1.locks| && 0 <= k < |s1.locks[l].waitQueue| ensures InLock(s1, l, s1.locks[l].waitQueue[k]) {
      assert InLock(s, l, s.locks[l].waitQueue[k]);
    }
    forall e, k | 0 <= e < |s1.events| && 0 <= k < |s1.events[e].waitQueue| ensures InEvent(s1, e, s1.events[e].waitQueue[k]) {
      assert InEvent(s, e, s.events[e].waitQueue[k]);
    }
    forall l | 0 <= l < NUM_LOCKS ensures Fair(s1, l, {}) { assert Fair(s, l, {}); }
    forall e | 0 <= e < NUM_EVENTS ensures EventOk(s1, e) { assert EventOk(s, e); }
    EnqueueServes(s1, {n}, {}, n);
    assert {n} - {n} == {};
  }

  lemma {:induction false} NoQueues(qs: seq<seq<nat>>, i: nat)
    requires forall k | 0 <= k < |qs| :: qs[k] == []
    ensures OccursIn(qs, i) == 0
  {
    if qs != [] {
      NoQueues(qs[1..], i);
    }
  }

  lemma InitServes()
    ensures SchedInv(InitSched())
  {
    var s := InitSched();
    forall i: nat ensures Placed(s, i, {}) {
      NoQueues(s.ready, i);
      NoQueues(LockQueues(s), i);
      NoQueues(EventQueues(s), i);
    }
  }
}
