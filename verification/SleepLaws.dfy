/** Sleeping and waking told by counters and queues alone: what a Sleep, a tick and a yield leave behind. */
module SleepLaws {
  import opened Basics
  import opened Scheduling
  import opened SchedulerInvariant
  import opened SchedulerRuns
  import opened LockLaws

  /** A sleeper goes behind those who sleep already, with its counter: one for a count of zero or less, else the count's
      low 32 bits. */
  lemma SleepLaw(s: Sched, i: nat, count: int)
    requires Sized(s) && QueuesOk(s) && i < |s.tasks|
    ensures var r := Handle(s, i, Sleep(count));
      && r.sleeping == s.sleeping + [i] && r.ready == s.ready && r.locks == s.locks && r.events == s.events
      && r.tasks == s.tasks[i := s.tasks[i].(state := WaitingSleep,
                                             sleepCounter := if count <= 0 then 1 else count % 0x1_0000_0000)]
  {}

  /** Whoever yields, or comes to the end of its quantum, goes to the back of the ready queue of its priority. */
  lemma YieldLaw(s: Sched, i: nat)
    requires Sized(s) && QueuesOk(s) && i < |s.tasks|
    ensures var r := Handle(s, i, Yield); Readied(s, r, [i]) && r.locks == s.locks && r.events == s.events
  {
    ReadiedOne(s, i);
  }

  /** Those with at most one tick to go, in order. */
  function Due(tasks: seq<Task>, q: seq<nat>): seq<nat>
    requires Below(q, |tasks|)
  {
    if q == [] then []
    else (if tasks[q[0]].sleepCounter > 1 then [] else [q[0]]) + Due(tasks, q[1..])
  }

  lemma {:induction false} DueSame(a: seq<Task>, b: seq<Task>, q: seq<nat>)
    requires Below(q, |a|) && |a| == |b| && forall k | 0 <= k < |q| :: a[q[k]].sleepCounter == b[q[k]].sleepCounter
    ensures Due(a, q) == Due(b, q)
  {
    if q != [] { DueSame(a, b, q[1..]); }
  }

  lemma {:induction false} DueBelow(tasks: seq<Task>, q: seq<nat>)
    requires Below(q, |tasks|)
    ensures Below(Due(tasks, q), |tasks|)
  {
    if q != [] { DueBelow(tasks, q[1..]); }
  }

  /** One tick: the sleepers that are due become ready, in the order they went to sleep, behind whoever is ready at their
      priorities; the rest stay asleep in that order with one tick less to go; nothing else changes. */
  lemma TickLaw(s: Sched)
    requires SchedInv(s)
    ensures Sized(s) && Below(s.sleeping, |s.tasks|) && Below(Due(s.tasks, s.sleeping), |s.tasks|)
    ensures var r, due := Tick(s), Due(s.tasks, s.sleeping);
      && r.sleeping == Stay(s.tasks, s.sleeping) && r.locks == s.locks && r.events == s.events
      && |r.ready| == |s.ready| && (forall p | 0 <= p < |s.ready| :: r.ready[p] == s.ready[p] + AtLevel(s.tasks, due, p))
      && |r.tasks| == |s.tasks| && forall j | 0 <= j < |s.tasks| ::
           var t := s.tasks[j];
           r.tasks[j] == if j !in s.sleeping then t
                         else if t.sleepCounter > 1 then t.(sleepCounter := t.sleepCounter - 1)
                         else t.(sleepCounter := 0, state := Ready)
  {
    InvQueues(s);
    DueBelow(s.tasks, s.sleeping);
    TickKeepsOrder(s);
    TickManyKeeps(s, |s.sleeping|);
    assert s.sleeping[..|s.sleeping|] == s.sleeping;
    forall j: nat | j < |s.tasks| { TickManyTasks(s, |s.sleeping|, j); }
    forall p: nat | p < |s.ready| { TickManyReady(s, |s.sleeping|, p); }
  }

  lemma {:induction false} TickManyReady(s: Sched, n: nat, p: nat)
    requires SchedInv(s) && Sized(s) && n <= |s.sleeping| && Below(s.sleeping, |s.tasks|) && p < |s.ready|
    ensures var due := Due(s.tasks, s.sleeping[..n]);
      && |TickMany(s, n).ready| == |s.ready| && Below(due, |s.tasks|)
      && TickMany(s, n).ready[p] == s.ready[p] + AtLevel(s.tasks, due, p)
    decreases n
  {
    hide SchedInv, TickOne, Enqueue;
    DueBelow(s.tasks, s.sleeping[..n]);
    if n > 0 {
      var q, v := s.sleeping, TickOne(s);
      TickOneOrder(s, n);
      TickOneReady(s, p);
      InvQueues(v);
      TickManyReady(v, n - 1, p);
      TickManyNext(s, n);
      DueBelow(s.tasks, q[1..n]);
      OthersSame(s, q[1..n]);
      DueSame(v.tasks, s.tasks, q[1..n]);
      AtLevelSame(v.tasks, s.tasks, Due(s.tasks, q[1..n]), p);
      var first := if s.tasks[q[0]].sleepCounter > 1 then [] else [q[0]];
      assert q[..n][1..] == q[1..n] && q[..n][0] == q[0];
      AtLevelAppend(s.tasks, first, Due(s.tasks, q[1..n]), p);
      Regroup(s.ready[p], AtLevel(s.tasks, first, p), AtLevel(s.tasks, Due(s.tasks, q[1..n]), p));
    }
  }

  lemma TickOneReady(s: Sched, p: nat)
    requires SchedInv(s) && Sized(s) && s.sleeping != [] && Below(s.sleeping, |s.tasks|) && p < |s.ready|
    ensures var v, i := TickOne(s), s.sleeping[0];
      && |v.ready| == |s.ready| && |v.tasks| == |s.tasks|
      && v.ready[p] == s.ready[p] + AtLevel(s.tasks, if s.tasks[i].sleepCounter > 1 then [] else [i], p)
      && forall j | 0 <= j < |s.tasks| :: v.tasks[j].priority == s.tasks[j].priority
  {
    var i := s.sleeping[0];
    TickOneServes(s);
    assert [i][1..] == [];
  }

  /** The other sleepers looked at keep their counters. */
  lemma OthersSame(s: Sched, rest: seq<nat>)
    requires SchedInv(s) && Sized(s) && s.sleeping != [] && Below(s.sleeping, |s.tasks|) && Below(rest, |s.tasks|)
    requires exists n: nat :: 0 < n <= |s.sleeping| && rest == s.sleeping[1..n]
    ensures |TickOne(s).tasks| == |s.tasks|
    ensures forall k | 0 <= k < |rest| :: TickOne(s).tasks[rest[k]].sleepCounter == s.tasks[rest[k]].sleepCounter
  {
    TickOneServes(s);
    SleepersDistinct(s);
    forall k | 0 <= k < |rest| ensures TickOne(s).tasks[rest[k]].sleepCounter == s.tasks[rest[k]].sleepCounter {
      assert rest[k] == s.sleeping[k + 1] && s.sleeping[0] != s.sleeping[k + 1];
    }
  }
}
