/** Replacement is a stack algorithm: what is resident is a prefix of one recency order that does not
    depend on the amount of memory. Hence inclusion, no more faults with more memory, and the
    working-set bound. */
module StackProperty {
  import opened Basics
  import opened Lru
  import opened Memory
  import opened Paging
  import opened FrameInvariant
  import opened FlatMemory

  // ---- Page accesses ---------------------------------------------------------------------------

  /** An access to page vpage by process proc. */
  datatype Ref = Ref(proc: nat, vpage: nat)

  /** Frames that can hold private pages. */
  function Evictable(vm: Vm): int {
    |vm.mem.frames| - NUM_SHARED
  }

  predicate Hits(vm: Vm, r: Ref) {
    Entry(vm.mem, r.proc, r.vpage).isValid
  }

  predicate Accessible(vm: Vm, r: Ref)
    requires Shape(vm)
  {
    r.proc < |vm.pids| && Live(vm, r.proc) && !InSharedWindow(r.vpage)
  }

  function TouchPage(vm: Vm, r: Ref): Vm {
    vm.(mem := TouchFrame(vm.mem, Entry(vm.mem, r.proc, r.vpage).physPage))
  }

  /** A byte access: a miss is a page fault followed by the retry, which hits. */
  function Visit(vm: Vm, r: Ref): Vm
    requires Shape(vm) && CanTake(vm)
  {
    if r.proc >= |vm.pids| then vm
    else TouchPage(if Hits(vm, r) then vm else PageIn(vm, r.proc, r.vpage), r)
  }

  ghost predicate Ready(vm: Vm, trace: seq<Ref>) {
    Inv(vm) && CanTake(vm) && Evictable(vm) > 0 && forall r | r in trace :: Accessible(vm, r)
  }

  function VisitAll(vm: Vm, trace: seq<Ref>): Vm
    requires Ready(vm, trace)
    ensures var r := VisitAll(vm, trace);
      Ready(r, trace) && r.pids == vm.pids && |r.mem.frames| == |vm.mem.frames|
    ensures forall q: Ref :: Accessible(vm, q) ==> Accessible(VisitAll(vm, trace), q)
  {
    if trace == [] then vm
    else
      var before := trace[..|trace| - 1];
      assert Ready(vm, before) by { assert forall r | r in before :: r in trace; }
      var v := VisitAll(vm, before);
      var last := trace[|trace| - 1];
      assert last in trace;
      VisitKeeps(v, last);
      assert forall r | r in trace :: Accessible(v, r);
      Visit(v, last)
  }

  function Faults(vm: Vm, trace: seq<Ref>): nat
    requires Ready(vm, trace)
  {
    if trace == [] then 0
    else
      var before := trace[..|trace| - 1];
      assert Ready(vm, before) by { assert forall r | r in before :: r in trace; }
      Faults(vm, before) + if Hits(VisitAll(vm, before), trace[|trace| - 1]) then 0 else 1
  }

  /** The pages a trace visits. */
  function PagesOf(vm: Vm, trace: seq<Ref>): set<Key>
    requires forall r | r in trace :: r.proc < |vm.pids|
  {
    if trace == [] then {}
    else
      var last := trace[|trace| - 1];
      assert last in trace;
      PagesOf(vm, trace[..|trace| - 1]) + {KeyOf(vm, last.proc, last.vpage)}
  }

  lemma VisitKeeps(vm: Vm, r: Ref)
    requires Inv(vm) && CanTake(vm) && Accessible(vm, r)
    ensures var v := Visit(vm, r);
      Inv(v) && CanTake(v) && v.pids == vm.pids && |v.mem.frames| == |vm.mem.frames|
    ensures forall q: Ref :: Accessible(vm, q) ==> Accessible(Visit(vm, r), q)
  {
    hide Inv, PageIn, CanTake;
    InvShape(vm);
    var v := if Hits(vm, r) then vm else PageIn(vm, r.proc, r.vpage);
    if !Hits(vm, r) {
      PageInInv(vm, r.proc, r.vpage);
      PageInMaps(vm, r.proc, r.vpage);
    }
    TouchKeeps(v, r);
  }

  lemma PageInMaps(vm: Vm, i: nat, vp: nat)
    requires Inv(vm) && i < |vm.pids| && Live(vm, i) && CanTake(vm) && !Entry(vm.mem, i, vp).isValid
    ensures var r := PageIn(vm, i, vp);
      && Entry(r.mem, i, vp) == PageEntry(TakenFrame(vm), true, false)
      && forall j | 0 <= j < |vm.pids| :: |r.mem.tables[j]| >= |vm.mem.tables[j]|
  {
    hide Inv, TakeFrame, CanTake, PageIn;
    InvShape(vm);
    GrowView(vm, i, vp + 1, i, vp);
    PageInForm(vm, i, vp);
    var vm1, k := vm.(mem := GrowTable(vm.mem, i, vp + 1)), KeyOf(vm, i, vp);
    var vm2 := TakeFrame(vm1);
    InstallEntries(vm2.(disk := vm2.disk - {k}), i, vp, TakenFrame(vm1), View(vm, i, vp));
  }

  lemma TouchKeeps(vm: Vm, r: Ref)
    requires Inv(vm) && CanTake(vm) && r.proc < |vm.pids| && Hits(vm, r)
    ensures Inv(TouchPage(vm, r)) && CanTake(TouchPage(vm, r))
  {
    var p := Entry(vm.mem, r.proc, r.vpage).physPage;
    assert Backed(vm, r.proc, r.vpage);
    TouchedInv(vm, TouchFrame(vm.mem, p), p);
    if !HasFree(vm.mem) {
      var v := Victim(vm.mem.lru, vm.shared).value;
      WithoutMembers(vm.mem.lru, {p});
      assert v in Touch(vm.mem.lru, p);
    }
  }

  // ---- The recency order of pages ------------------------------------------------------------------

  function Keys(l: seq<nat>, owner: map<nat, Key>): seq<Key> {
    if l == [] then []
    else if l[0] in owner then [owner[l[0]]] + Keys(l[1..], owner)
    else Keys(l[1..], owner)
  }

  /** The resident private pages, most recently used first. */
  function Stack(vm: Vm): seq<Key> {
    Keys(vm.mem.lru, vm.owner)
  }

  /** The most recently used page moves to the front. */
  function MoveToFront(s: seq<Key>, k: Key): seq<Key> {
    [k] + Without(s, {k})
  }

  lemma {:induction false} KeysAppend(a: seq<nat>, b: seq<nat>, owner: map<nat, Key>)
    ensures Keys(a + b, owner) == Keys(a, owner) + Keys(b, owner)
  {
    if a == [] {
      assert a + b == b;
    } else {
      KeysAppend(a[1..], b, owner);
      assert (a + b)[1..] == a[1..] + b;
    }
  }

  lemma {:induction false} KeysMembers(l: seq<nat>, owner: map<nat, Key>)
    ensures forall k :: k in Keys(l, owner) <==> exists f :: f in l && f in owner && owner[f] == k
  {
    if l != [] {
      KeysMembers(l[1..], owner);
      forall k ensures k in Keys(l, owner) <==> exists f :: f in l && f in owner && owner[f] == k {
        if f :| f in l && f in owner && owner[f] == k {
          assert f == l[0] || f in l[1..];
        }
        if k in Keys(l, owner) {
          assert (l[0] in owner && k == owner[l[0]]) || k in Keys(l[1..], owner);
        }
      }
    }
  }

  lemma {:induction false} KeysLength(l: seq<nat>, owner: map<nat, Key>, others: set<nat>)
    requires forall f | f in l :: f in others <==> f !in owner
    ensures |Keys(l, owner)| == |Without(l, others)|
  {
    if l != [] {
      KeysLength(l[1..], owner, others);
    }
  }

  ghost predicate Injective(owner: map<nat, Key>) {
    forall f, g | f in owner && g in owner && owner[f] == owner[g] :: f == g
  }

  lemma {:induction false} KeysNoDup(l: seq<nat>, owner: map<nat, Key>)
    requires NoDup(l) && Injective(owner)
    ensures NoDup(Keys(l, owner))
  {
    if l != [] {
      KeysNoDup(l[1..], owner);
      KeysMembers(l[1..], owner);
      var r := Keys(l[1..], owner);
      assert l[0] in owner ==> owner[l[0]] !in r;
      assert forall b | 0 <= b < |r| :: r[b] in r;
    }
  }

  /** Keys look only at the owners of the listed frames. */
  lemma {:induction false} KeysFrame(l: seq<nat>, a: map<nat, Key>, b: map<nat, Key>)
    requires forall f | f in l :: (f in a <==> f in b) && (f in a ==> a[f] == b[f])
    ensures Keys(l, a) == Keys(l, b)
  {
    if l != [] {
      KeysFrame(l[1..], a, b);
    }
  }

  lemma {:induction false} KeysWithout(l: seq<nat>, owner: map<nat, Key>, p: nat)
    requires p in owner && Injective(owner)
    ensures Keys(Without(l, {p}), owner) == Without(Keys(l, owner), {owner[p]})
  {
    if l != [] {
      KeysWithout(l[1..], owner, p);
      if l[0] in owner {
        WithoutAppend([owner[l[0]]], Keys(l[1..], owner), {owner[p]});
      }
    }
  }

  // ---- Counting --------------------------------------------------------------------------------------

  lemma TwoOut(l: seq<nat>, a: nat, b: nat)
    requires NoDup(l) && a in l && b in l && a != b
    ensures |Without(l, {a, b})| == |l| - 2
  {
    var r: seq<nat> := Without<nat>(l, {a});
    OneOut(l, a);
    WithoutMembers(l, {a});
    WithoutNoDup(l, {a});
    OneOut(r, b);
    WithoutTwice(l, {a}, {b});
    assert {a} + {b} == {a, b};
  }

  lemma OneOut(l: seq<nat>, a: nat)
    requires NoDup(l) && a in l
    ensures |Without(l, {a})| == |l| - 1
  {
    hide Without;
    var k :| 0 <= k < |l| && l[k] == a;
    WithoutAt(l, k);
  }

  /** The stack fits the evictable frames, and fills them exactly when no frame is free. */
  lemma StackSize(vm: Vm)
    requires Inv(vm)
    ensures |Stack(vm)| <= Evictable(vm) && (|Stack(vm)| == Evictable(vm) <==> !HasFree(vm.mem))
    ensures NoDup(Stack(vm))
  {
    var l, n := vm.mem.lru, |vm.mem.frames|;
    var a, b := vm.shared[0], vm.shared[1];
    forall f | f in l ensures f in {a, b} <==> f !in vm.owner {
      assert vm.mem.used[f];
    }
    KeysLength(l, vm.owner, {a, b});
    assert a in vm.shared && b in vm.shared;
    TwoOut(l, a, b);
    NoDupBound(l, n);
    KeysNoDup(l, vm.owner);
    if !HasFree(vm.mem) {
      forall f: nat | f < n ensures f in l { assert vm.mem.used[f]; }
    } else {
      assert FirstFree(vm.mem.used, 0) !in l;
    }
  }

  /** A private page is resident iff it is on the stack. */
  lemma OnStackIffResident(vm: Vm, r: Ref)
    requires Inv(vm) && Accessible(vm, r)
    ensures KeyOf(vm, r.proc, r.vpage) in Stack(vm) <==> Hits(vm, r)
  {
    var k := KeyOf(vm, r.proc, r.vpage);
    KeysMembers(vm.mem.lru, vm.owner);
    if Hits(vm, r) {
      assert Backed(vm, r.proc, r.vpage);
    } else {
      NoOwnerOf(vm, r.proc, r.vpage);
    }
  }

  lemma NoOwnerOf(vm: Vm, i: nat, vp: nat)
    requires Inv(vm) && i < |vm.pids| && !Entry(vm.mem, i, vp).isValid
    ensures forall f | f in vm.owner :: vm.owner[f] != KeyOf(vm, i, vp)
  {
    forall f | f in vm.owner ensures vm.owner[f] != KeyOf(vm, i, vp) { assert Owning(vm, f); }
  }

  // ---- One access ------------------------------------------------------------------------------------

  lemma HitStack(vm: Vm, r: Ref)
    requires Inv(vm) && Accessible(vm, r) && Hits(vm, r)
    ensures Stack(TouchPage(vm, r)) == MoveToFront(Stack(vm), KeyOf(vm, r.proc, r.vpage))
  {
    var p := Entry(vm.mem, r.proc, r.vpage).physPage;
    assert Backed(vm, r.proc, r.vpage);
    KeysAppend([p], Without(vm.mem.lru, {p}), vm.owner);
    KeysWithout(vm.mem.lru, vm.owner, p);
    assert [p][1..] == [] && Keys([p], vm.owner) == [vm.owner[p]];
  }

  /** Eviction drops the bottom of the stack. */
  lemma EvictStack(vm: Vm)
    requires Inv(vm) && Victim(vm.mem.lru, vm.shared).Some?
    ensures |Stack(vm)| > 0
    ensures Keys(Without(vm.mem.lru, {Victim(vm.mem.lru, vm.shared).value}), vm.owner) == Stack(vm)[..|Stack(vm)| - 1]
  {
    var l, v := vm.mem.lru, Victim(vm.mem.lru, vm.shared).value;
    var k := VictimSplits(l, vm.shared);
    assert v in vm.owner by { assert vm.mem.used[v]; }
    WithoutAt(l, k);
    assert l == l[..k] + ([v] + l[k + 1..]);
    KeysAppend(l[..k], [v] + l[k + 1..], vm.owner);
    KeysAppend(l[..k], l[k + 1..], vm.owner);
    KeysPinned(l[k + 1..], vm.owner);
  }

  lemma {:induction false} KeysPinned(l: seq<nat>, owner: map<nat, Key>)
    requires forall f | f in l :: f !in owner
    ensures Keys(l, owner) == []
  {
    if l != [] {
      KeysPinned(l[1..], owner);
    }
  }

  lemma MissStack(vm: Vm, i: nat, vp: nat)
    requires Inv(vm) && Live(vm, i) && i < |vm.pids| && CanTake(vm) && !Entry(vm.mem, i, vp).isValid
    requires Evictable(vm) > 0
    ensures Stack(PageIn(vm, i, vp)) == Take([KeyOf(vm, i, vp)] + Stack(vm), Evictable(vm))
  {
    hide Inv, PageIn, CanTake;
    InvShape(vm);
    var p, k, r, s := TakenFrame(vm), KeyOf(vm, i, vp), PageIn(vm, i, vp), Stack(vm);
    var l := Without(vm.mem.lru, {p});
    PageInRecency(vm, i, vp);
    KeysAppend([p], l, r.owner);
    assert [p][1..] == [] && Keys([p], r.owner) == [k];
    WithoutMembers(vm.mem.lru, {p});
    KeysFrame(l, r.owner, vm.owner);
    StackSize(vm);
    if HasFree(vm.mem) {
      FreshUnlisted(vm);
      WithoutNothing(vm.mem.lru, {p});
    } else {
      VictimExists(vm);
      EvictStack(vm);
      assert ([k] + s)[..|s|] == [k] + s[..|s| - 1];
    }
  }

  lemma FreshUnlisted(vm: Vm)
    requires Inv(vm) && HasFree(vm.mem)
    ensures FirstFree(vm.mem.used, 0) !in vm.mem.lru
  {
    assert !vm.mem.used[FirstFree(vm.mem.used, 0)];
  }

  lemma VictimExists(vm: Vm)
    requires CanTake(vm) && !HasFree(vm.mem)
    ensures Victim(vm.mem.lru, vm.shared).Some?
  {}

  lemma PageInRecency(vm: Vm, i: nat, vp: nat)
    requires Inv(vm) && Live(vm, i) && i < |vm.pids| && CanTake(vm) && !Entry(vm.mem, i, vp).isValid
    ensures var p, r := TakenFrame(vm), PageIn(vm, i, vp);
      && r.mem.lru == [p] + Without(vm.mem.lru, {p})
      && p in r.owner && r.owner[p] == KeyOf(vm, i, vp)
      && forall f | f != p :: (f in r.owner <==> f in vm.owner) && (f in vm.owner ==> r.owner[f] == vm.owner[f])
  {
    hide PageIn, TakeFrame, Inv, CanTake;
    InvShape(vm);
    TouchTwice(vm.mem.lru, TakenFrame(vm));
    WithoutTwice(vm.mem.lru, {TakenFrame(vm)}, {TakenFrame(vm)});
    assert {TakenFrame(vm)} + {TakenFrame(vm)} == {TakenFrame(vm)};
    var vm1 := vm.(mem := GrowTable(vm.mem, i, vp + 1));
    GrowView(vm, i, vp + 1, i, vp);
    GrowInv(vm, i, vp + 1);
    TakeFrameOwners(vm1);
    PageInForm(vm, i, vp);
  }

  lemma TakeFrameOwners(vm: Vm)
    requires Shape(vm) && CanTake(vm)
    ensures var p, r := TakenFrame(vm), TakeFrame(vm);
      && (r.owner == vm.owner - {p} || (HasFree(vm.mem) && r.owner == vm.owner))
      && r.mem.lru == if HasFree(vm.mem) then Touch(vm.mem.lru, p) else Without(vm.mem.lru, {p})
  {}

  /** Every access, hit or miss, moves its page to the front of the stack and cuts it to the memory. */
  lemma VisitStack(vm: Vm, r: Ref)
    requires Inv(vm) && CanTake(vm) && Evictable(vm) > 0 && Accessible(vm, r)
    ensures Stack(Visit(vm, r)) == Take(MoveToFront(Stack(vm), KeyOf(vm, r.proc, r.vpage)), Evictable(vm))
  {
    var k, s, m := KeyOf(vm, r.proc, r.vpage), Stack(vm), Evictable(vm);
    hide Inv, CanTake, PageIn, Stack;
    InvShape(vm);
    StackSize(vm);
    OnStackIffResident(vm, r);
    if Hits(vm, r) {
      HitStack(vm, r);
      MoveLength(s, k);
    } else {
      MissStack(vm, r.proc, r.vpage);
      WithoutNothing(s, {k});
      RetryStack(vm, r);
    }
  }

  /** The retry after a fault touches the page that is already in front. */
  lemma RetryStack(vm: Vm, r: Ref)
    requires Inv(vm) && CanTake(vm) && Accessible(vm, r) && !Hits(vm, r)
    ensures Stack(Visit(vm, r)) == Stack(PageIn(vm, r.proc, r.vpage))
  {
    hide Inv, CanTake, PageIn;
    InvShape(vm);
    PageInRecency(vm, r.proc, r.vpage);
    PageInMaps(vm, r.proc, r.vpage);
    TouchTwice(vm.mem.lru, TakenFrame(vm));
  }

  lemma MoveLength(s: seq<Key>, k: Key)
    requires NoDup(s) && k in s
    ensures |MoveToFront(s, k)| == |s|
  {
    var j :| 0 <= j < |s| && s[j] == k;
    WithoutAt(s, j);
  }

  // ---- Whole traces ----------------------------------------------------------------------------------

  /** The recency order a trace leaves behind, with no regard to memory size. */
  function Recency(vm: Vm, trace: seq<Ref>, start: seq<Key>): seq<Key>
    requires forall r | r in trace :: r.proc < |vm.pids|
  {
    if trace == [] then start
    else
      var last := trace[|trace| - 1];
      assert last in trace;
      MoveToFront(Recency(vm, trace[..|trace| - 1], start), KeyOf(vm, last.proc, last.vpage))
  }

  lemma MoveNoDup(s: seq<Key>, k: Key)
    requires NoDup(s)
    ensures NoDup(MoveToFront(s, k))
  {
    WithoutNoDup(s, {k});
    WithoutMembers(s, {k});
  }

  /** Cutting to m before or after a move to the front makes no difference to the first m. */
  lemma TakeMove(s: seq<Key>, k: Key, m: nat)
    requires NoDup(s) && m > 0
    ensures Take(MoveToFront(Take(s, m), k), m) == Take(MoveToFront(s, k), m)
  {
    if m < |s| {
      var a, b := s[..m], s[m..];
      assert s == a + b;
      WithoutAppend(a, b, {k});
      if k in a {
        MoveLength(a, k);
        assert [k] + (Without(a, {k}) + Without(b, {k})) == MoveToFront(a, k) + Without(b, {k});
      } else {
        WithoutNothing(a, {k});
        assert ([k] + (a + Without(b, {k})))[..m] == ([k] + a)[..m];
      }
    }
  }

  lemma ReadyPrefix(vm: Vm, trace: seq<Ref>)
    requires Ready(vm, trace) && trace != []
    ensures Ready(vm, trace[..|trace| - 1]) && Accessible(vm, trace[|trace| - 1])
  {
    assert forall r | r in trace[..|trace| - 1] :: r in trace;
    assert trace[|trace| - 1] in trace;
  }

  /** Stack property: after any trace the resident pages, in order of use, are the first so many of
      the recency order, as many as there are evictable frames. */
  lemma {:induction false} ResidentAreTheMostRecent(vm: Vm, trace: seq<Ref>)
    requires Ready(vm, trace)
    ensures NoDup(Recency(vm, trace, Stack(vm)))
    ensures Stack(VisitAll(vm, trace)) == Take(Recency(vm, trace, Stack(vm)), Evictable(vm))
  {
    if trace == [] {
      StackSize(vm);
    } else {
      hide Inv, CanTake, Visit, Stack;
      ReadyPrefix(vm, trace);
      var before, last := trace[..|trace| - 1], trace[|trace| - 1];
      ResidentAreTheMostRecent(vm, before);
      var v := VisitAll(vm, before);
      VisitStack(v, last);
      var s, k := Recency(vm, before, Stack(vm)), KeyOf(vm, last.proc, last.vpage);
      MoveNoDup(s, k);
      TakeMove(s, k, Evictable(vm));
    }
  }

  /** Inclusion: on the same trace a system with at least as many evictable frames, starting with at
      least the same pages, keeps every page the smaller one keeps, and faults at most as often. */
  lemma {:induction false} MoreMemoryNeverHurts(a: Vm, b: Vm, trace: seq<Ref>)
    requires Ready(a, trace) && Ready(b, trace) && a.pids == b.pids && Evictable(a) <= Evictable(b)
    requires Stack(a) == Take(Stack(b), Evictable(a))
    ensures Stack(VisitAll(a, trace)) == Take(Stack(VisitAll(b, trace)), Evictable(a))
    ensures Faults(b, trace) <= Faults(a, trace)
  {
    hide Inv, CanTake, Visit, Stack, Hits, Accessible;
    if trace != [] {
      ReadyPrefix(a, trace);
      ReadyPrefix(b, trace);
      var before, last := trace[..|trace| - 1], trace[|trace| - 1];
      MoreMemoryNeverHurts(a, b, before);
      VisitIncluded(VisitAll(a, before), VisitAll(b, before), last);
    }
  }

  /** ... as after every single access. */
  lemma VisitIncluded(a: Vm, b: Vm, r: Ref)
    requires Inv(a) && CanTake(a) && Evictable(a) > 0 && Accessible(a, r)
    requires Inv(b) && CanTake(b) && Evictable(b) > 0 && Accessible(b, r)
    requires a.pids == b.pids && Evictable(a) <= Evictable(b) && Stack(a) == Take(Stack(b), Evictable(a))
    ensures Stack(Visit(a, r)) == Take(Stack(Visit(b, r)), Evictable(a))
    ensures Hits(a, r) ==> Hits(b, r)
  {
    hide Inv, CanTake, Visit, Stack, Hits, MoveToFront;
    var k, s := KeyOf(a, r.proc, r.vpage), Stack(b);
    VisitStack(a, r);
    VisitStack(b, r);
    OnStackIffResident(a, r);
    OnStackIffResident(b, r);
    StackNoDup(b);
    assert k in Take(s, Evictable(a)) ==> k in s;
    TakeMove(s, k, Evictable(a));
    TakeTake(MoveToFront(s, k), Evictable(a), Evictable(b));
  }

  lemma StackNoDup(vm: Vm)
    requires Inv(vm)
    ensures NoDup(Stack(vm))
  {
    StackSize(vm);
  }

  lemma TakeTake(s: seq<Key>, m: nat, n: nat)
    requires m <= n
    ensures Take(Take(s, n), m) == Take(s, m)
  {}

  /** In particular every page resident with less memory is resident with more. */
  lemma ResidentIncluded(a: Vm, b: Vm, trace: seq<Ref>, r: Ref)
    requires Ready(a, trace) && Ready(b, trace) && a.pids == b.pids && Evictable(a) <= Evictable(b)
    requires Stack(a) == Take(Stack(b), Evictable(a))
    requires Accessible(a, r) && Accessible(b, r) && Hits(VisitAll(a, trace), r)
    ensures Hits(VisitAll(b, trace), r)
  {
    MoreMemoryNeverHurts(a, b, trace);
    OnStackIffResident(VisitAll(a, trace), r);
    OnStackIffResident(VisitAll(b, trace), r);
  }

  // ---- Working sets -------------------------------------------------------------------------------------

  lemma FirstMoved(s: seq<Key>, k: Key, n: nat, pages: set<Key>)
    requires NoDup(s) && n <= |s| && SetOf(s[..n]) == pages
    ensures var t := MoveToFront(s, k);
      var n1 := if k in pages then n else n + 1;
      n1 <= |t| && SetOf(t[..n1]) == pages + {k}
  {
    var a, b := s[..n], s[n..];
    assert s == a + b;
    WithoutAppend(a, b, {k});
    WithoutMembers(a, {k});
    var t := MoveToFront(s, k);
    var w := [k] + Without(a, {k});
    assert t == w + Without(b, {k});
    if k in pages {
      MoveLength(a, k);
    } else {
      WithoutNothing(a, {k});
    }
    assert t[..|w|] == w;
  }

  lemma TopGrows(s: seq<Key>, k: Key, d: set<Key>, m: nat)
    requires NoDup(s) && |d| <= |s| && SetOf(s[..|d|]) == d && |d + {k}| <= m
    ensures var t := Take(MoveToFront(s, k), m);
      |d + {k}| <= |t| && SetOf(t[..|d + {k}|]) == d + {k}
  {
    FirstMoved(s, k, |d|, d);
    if k in d {
      assert d + {k} == d;
    }
    var n, t := |d + {k}|, MoveToFront(s, k);
    assert Take(t, m)[..n] == t[..n];
  }

  /** While a trace visits no more pages than there are evictable frames, all of them stay resident:
      they are the top of the stack. */
  lemma {:induction false} VisitedStayResident(vm: Vm, trace: seq<Ref>)
    requires Ready(vm, trace) && |PagesOf(vm, trace)| <= Evictable(vm)
    ensures |PagesOf(vm, trace)| <= |Stack(VisitAll(vm, trace))|
    ensures SetOf(Stack(VisitAll(vm, trace))[..|PagesOf(vm, trace)|]) == PagesOf(vm, trace)
  {
    hide Inv, CanTake, Visit, Stack, MoveToFront;
    if trace == [] {
      assert Stack(VisitAll(vm, trace))[..0] == [];
    } else {
      ReadyPrefix(vm, trace);
      var before, last := trace[..|trace| - 1], trace[|trace| - 1];
      var k, d := KeyOf(vm, last.proc, last.vpage), PagesOf(vm, before);
      assert PagesOf(vm, trace) == d + {k};
      assert |d| <= |d + {k}| by { assert k in d ==> d + {k} == d; }
      VisitedStayResident(vm, before);
      var v := VisitAll(vm, before);
      StackNoDup(v);
      VisitStack(v, last);
      TopGrows(Stack(v), k, d, Evictable(vm));
    }
  }

  /** Working-set bound: such a trace faults at most once per page. */
  lemma {:induction false} OneFaultPerPage(vm: Vm, trace: seq<Ref>)
    requires Ready(vm, trace) && |PagesOf(vm, trace)| <= Evictable(vm)
    ensures Faults(vm, trace) <= |PagesOf(vm, trace)|
  {
    if trace != [] {
      hide Inv, CanTake, Visit, Stack;
      ReadyPrefix(vm, trace);
      var before, last := trace[..|trace| - 1], trace[|trace| - 1];
      var k, d := KeyOf(vm, last.proc, last.vpage), PagesOf(vm, before);
      assert PagesOf(vm, trace) == d + {k};
      assert k in d ==> d + {k} == d;
      OneFaultPerPage(vm, before);
      VisitedStayResident(vm, before);
      OnStackIffResident(VisitAll(vm, before), last);
      var s := Stack(VisitAll(vm, before));
      assert k in d ==> k in s by {
        if k in d { assert k in SetOf(s[..|d|]); }
      }
    }
  }

  /** ... and a page visited before in such a trace hits. */
  lemma RevisitHits(vm: Vm, before: seq<Ref>, last: Ref)
    requires Ready(vm, before) && Accessible(vm, last) && |PagesOf(vm, before)| <= Evictable(vm)
    requires KeyOf(vm, last.proc, last.vpage) in PagesOf(vm, before)
    ensures Hits(VisitAll(vm, before), last)
  {
    VisitedStayResident(vm, before);
    var s, k, d := Stack(VisitAll(vm, before)), KeyOf(vm, last.proc, last.vpage), PagesOf(vm, before);
    assert k in SetOf(s[..|d|]);
    OnStackIffResident(VisitAll(vm, before), last);
  }
}
