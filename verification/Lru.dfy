/** The recency list of MMU.cpp: front is the most recently used frame, back the least. */
module Lru {
  import opened Basics

  /** touchPhysPage: erase the old position, push to the front. */
  function Touch(l: seq<nat>, p: nat): seq<nat> {
    [p] + Without(l, {p})
  }

  /** getLRUPhysPage: scan from the back, skipping pinned frames. */
  function Victim(l: seq<nat>, pinned: seq<nat>): (r: Option<nat>)
    ensures r.Some? ==> r.value in l && r.value !in pinned
    ensures r.None? ==> forall p | p in l :: p in pinned
  {
    if l == [] then None
    else
      var last := l[|l| - 1];
      if last !in pinned then Some(last) else Victim(l[..|l| - 1], pinned)
  }

  /** The victim is the last unpinned member: everything behind it is pinned. */
  lemma {:induction false} VictimSplits(l: seq<nat>, pinned: seq<nat>) returns (k: nat)
    requires Victim(l, pinned).Some?
    ensures k < |l| && l[k] == Victim(l, pinned).value
    ensures forall j | k < j < |l| :: l[j] in pinned
  {
    k := |l| - 1;
    if l[k] in pinned {
      k := VictimSplits(l[..|l| - 1], pinned);
      assert l[..|l| - 1][k] == l[k];
    }
  }

  // ---- Recency against a history of touches --------------------------------------------

  /** What happened to the list, oldest event first. */
  datatype Event = Touched(page: nat) | Dropped(page: nat)

  function Replay(h: seq<Event>): seq<nat> {
    if h == [] then []
    else
      var before := Replay(h[..|h| - 1]);
      match h[|h| - 1]
      case Touched(p) => Touch(before, p)
      case Dropped(p) => Without(before, {p})
  }

  /** The time of the last touch of p, or -1. */
  function LastTouch(h: seq<Event>, p: nat): (t: int)
    ensures -1 <= t < |h|
    ensures t >= 0 ==> h[t] == Touched(p)
    ensures forall k | t < k < |h| :: h[k] != Touched(p)
  {
    if h == [] then -1
    else if h[|h| - 1] == Touched(p) then |h| - 1
    else LastTouch(h[..|h| - 1], p)
  }

  ghost predicate ByRecency(l: seq<nat>, h: seq<Event>) {
    forall a, b | 0 <= a < b < |l| :: LastTouch(h, l[a]) > LastTouch(h, l[b])
  }

  /** The list is duplicate free and ordered by last touch, newest first. */
  lemma {:induction false} ReplayIsByRecency(h: seq<Event>)
    ensures NoDup(Replay(h)) && ByRecency(Replay(h), h)
  {
    if h != [] {
      var g, e := h[..|h| - 1], h[|h| - 1];
      ReplayIsByRecency(g);
      WithoutNoDup(Replay(g), {e.page});
      WithoutMembers(Replay(g), {e.page});
      WithoutKeepsRecency(Replay(g), e.page, g, h);
    }
  }

  /** It holds exactly the frames touched since they were last dropped. */
  lemma {:induction false} ReplayMembers(h: seq<Event>, p: nat)
    ensures p in Replay(h) <==>
              LastTouch(h, p) >= 0 && forall k | LastTouch(h, p) < k < |h| :: h[k] != Dropped(p)
  {
    if h != [] {
      var g, e := h[..|h| - 1], h[|h| - 1];
      ReplayMembers(g, p);
      WithoutMembers(Replay(g), {e.page});
      assert forall k | 0 <= k < |g| :: g[k] == h[k];
      if e.page != p {
        var t := LastTouch(g, p);
        assert (forall k | t < k < |h| :: h[k] != Dropped(p)) <==> (forall k | t < k < |g| :: g[k] != Dropped(p));
      }
    }
  }

  lemma WithoutKeepsRecency(l: seq<nat>, p: nat, g: seq<Event>, h: seq<Event>)
    requires NoDup(l) && ByRecency(l, g)
    requires forall q: nat | q != p :: LastTouch(h, q) == LastTouch(g, q)
    ensures ByRecency(Without(l, {p}), h)
  {
    if p in l {
      var k :| 0 <= k < |l| && l[k] == p;
      WithoutAt(l, k);
    } else {
      WithoutNothing(l, {p});
    }
  }

  /** Eviction takes the unpinned frame whose last touch lies furthest back. */
  lemma VictimIsOldest(h: seq<Event>, pinned: seq<nat>, q: nat)
    requires Victim(Replay(h), pinned).Some?
    requires q in Replay(h) && q !in pinned && q != Victim(Replay(h), pinned).value
    ensures LastTouch(h, Victim(Replay(h), pinned).value) < LastTouch(h, q)
  {
    ReplayIsByRecency(h);
    var k := VictimSplits(Replay(h), pinned);
    var j :| 0 <= j < |Replay(h)| && Replay(h)[j] == q;
  }
}
