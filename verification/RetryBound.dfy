/** How often one instruction can fault: once per page it touches, six times at most, where memory holds
    its pages; whatever bytes the evictions in between lose. */
module RetryBound {
  import opened Basics
  import opened Memory
  import opened Paging
  import opened FrameInvariant
  import opened PagingRuns
  import opened FlatMemory
  import opened StackProperty
  import opened Processor
  import opened FlatInstructions
  import opened KernelRuns
  import Restart

  /** Pages of the instruction at ip. */
  function IpPages(ip: Word): set<nat> {
    {ip / PAGE_SIZE, At(ip, 11) / PAGE_SIZE}
  }

  // ---- The pages of one instruction -------------------------------------------------------------------

  function WordPages(va: Word): set<nat> {
    {va / PAGE_SIZE, At(va, 3) / PAGE_SIZE}
  }

  function EffectPages(e: Effect): set<nat> {
    match e
    case Plain(_, _) => {}
    case Load(addr, _) => WordPages(addr)
    case LoadByte(addr) => {addr / PAGE_SIZE}
    case Store(addr, _, _, _) => WordPages(addr)
    case Move(src, dst, _) => WordPages(src) + WordPages(dst)
    case StoreThenJump(addr, _, _, target) => WordPages(addr) + WordPages(target)
  }

  /** Two code pages and at most four data pages. */
  function InstrPages(c: Ctx, vm: Vm, i: nat): set<nat>
    requires CtxOk(c) && Shape(vm)
  {
    IpPages(c.ip) + (if InstrAt(c, vm, i).Some? then EffectPages(InstrAt(c, vm, i).value) else {})
  }

  ghost function PageSet(s: set<nat>): iset<nat> {
    iset q | q in s
  }

  lemma PairBound(a: nat, b: nat)
    ensures |{a, b}| <= 2
  {
    assert {a, b} == {a} + {b};
  }

  lemma UnionBound(a: set<nat>, b: set<nat>)
    ensures |a + b| <= |a| + |b|
  {
    assert a + b == a + (b - a);
  }

  lemma SixPages(c: Ctx, vm: Vm, i: nat)
    requires CtxOk(c) && Shape(vm)
    ensures |InstrPages(c, vm, i)| <= 6
  {
    hide InstrAt, At;
    PairBound(c.ip / PAGE_SIZE, At(c.ip, 11) / PAGE_SIZE);
    if InstrAt(c, vm, i).Some? {
      EffectBound(InstrAt(c, vm, i).value);
      UnionBound(IpPages(c.ip), EffectPages(InstrAt(c, vm, i).value));
    }
  }

  lemma EffectBound(e: Effect)
    ensures |EffectPages(e)| <= 4
  {
    hide At;
    match e
    case Plain(_, _) =>
    case Load(addr, _) => PairBound(addr / PAGE_SIZE, At(addr, 3) / PAGE_SIZE);
    case LoadByte(addr) =>
    case Store(addr, _, _, _) => PairBound(addr / PAGE_SIZE, At(addr, 3) / PAGE_SIZE);
    case Move(a, b, _) =>
      PairBound(a / PAGE_SIZE, At(a, 3) / PAGE_SIZE);
      PairBound(b / PAGE_SIZE, At(b, 3) / PAGE_SIZE);
      UnionBound(WordPages(a), WordPages(b));
    case StoreThenJump(a, _, _, b) =>
      PairBound(a / PAGE_SIZE, At(a, 3) / PAGE_SIZE);
      PairBound(b / PAGE_SIZE, At(b, 3) / PAGE_SIZE);
      UnionBound(WordPages(a), WordPages(b));
  }

  lemma WithinWord(va: Word, k: nat)
    requires k < 4
    ensures At(va, k) / PAGE_SIZE in WordPages(va)
  {}

  lemma WithinCode(ip: Word, k: nat)
    requires k < 12
    ensures At(ip, k) / PAGE_SIZE in IpPages(ip)
  {}

  lemma WordPagesIn(va: Word, s: set<nat>)
    requires WordPages(va) <= s
    ensures WordIn(va, PageSet(s))
  {
    hide At;
    forall k: nat | k < 4 ensures At(va, k) / PAGE_SIZE in PageSet(s) { WithinWord(va, k); }
  }

  lemma IpPagesIn(ip: Word, s: set<nat>)
    requires IpPages(ip) <= s
    ensures CodeIn(ip, PageSet(s))
  {
    hide At;
    forall j: nat, k: nat | (j == 0 || j == 4 || j == 8) && k < 4 ensures At(At(ip, j), k) / PAGE_SIZE in PageSet(s) {
      WithinCode(ip, j + k);
      Restart.AtAt(ip, j, k);
    }
    Restart.AtAt(ip, 0, 0);
  }

  /** The pages of an instruction are the ones its attempt touches. */
  lemma InstrPagesIn(vm: Vm, i: nat, c: Ctx)
    requires Inv(vm) && Shape(vm) && i < |vm.pids| && CtxOk(c)
    ensures InstrIn(SpaceOf(vm, i), c, PageSet(InstrPages(c, vm, i)))
  {
    hide Inv, Fetch, ByteAt, At, WordIn, CodeIn;
    var s := InstrPages(c, vm, i);
    FetchIsFlat(vm, i, c.ip);
    IpPagesIn(c.ip, s);
    var e := InstrAt(c, vm, i);
    if e.Some? {
      match e.value
      case Plain(_, _) =>
      case Load(addr, _) => WordPagesIn(addr, s);
      case LoadByte(addr) =>
      case Store(addr, _, _, _) => WordPagesIn(addr, s);
      case Move(a, b, _) =>
        WordPagesIn(a, s);
        WordPagesIn(b, s);
      case StoreThenJump(a, _, _, b) =>
        WordPagesIn(a, s);
        WordPagesIn(b, s);
    }
  }

  // ---- What the attempts so far have pinned -------------------------------------------------------------

  /** The pages of d are the most recently used ones. */
  ghost predicate Recent(vm: Vm, d: set<Key>) {
    |d| <= |Stack(vm)| && SetOf(Stack(vm)[..|d|]) == d
  }

  /** Pages of process i with these numbers. */
  function KeysOf(vm: Vm, i: nat, pages: set<nat>): set<Key>
    requires i < |vm.pids|
  {
    set q | q in pages :: KeyOf(vm, i, q)
  }

  lemma {:induction false} SubsetSize<T>(a: set<T>, b: set<T>)
    requires a <= b
    ensures |a| <= |b|
  {
    assert b == a + (b - a);
  }

  lemma {:induction false} KeysOfSize(vm: Vm, i: nat, pages: set<nat>)
    requires i < |vm.pids|
    ensures |KeysOf(vm, i, pages)| <= |pages|
  {
    if pages == {} {
      assert KeysOf(vm, i, pages) == {};
    } else {
      var q :| q in pages;
      KeysOfSize(vm, i, pages - {q});
      assert KeysOf(vm, i, pages) == KeysOf(vm, i, pages - {q}) + {KeyOf(vm, i, q)};
    }
  }

  /** The access is in bounds and its page resident. */
  predicate Lands(vm: Vm, op: Op)
    requires op.Read? || op.Write?
  {
    op.proc < |vm.sizes| && IsValidVaddr(vm.sizes[op.proc], op.vaddr) && Entry(vm.mem, op.proc, op.vaddr / PAGE_SIZE).isValid
  }

  lemma AccessStack(vm: Vm, i: nat, op: Op)
    requires Inv(vm) && Shape(vm) && i < |vm.pids| && Live(vm, i)
    requires (op.Read? || op.Write?) && op.proc == i && !InSharedWindow(op.vaddr / PAGE_SIZE)
    ensures Stack(Step(vm, op)) == Stack(vm) ||
            Stack(Step(vm, op)) == MoveToFront(Stack(vm), KeyOf(vm, i, op.vaddr / PAGE_SIZE))
    ensures Stack(Step(vm, op)) != Stack(vm) ==> Hits(vm, Ref(i, op.vaddr / PAGE_SIZE))
    ensures Lands(vm, op) ==> Stack(Step(vm, op)) == MoveToFront(Stack(vm), KeyOf(vm, i, op.vaddr / PAGE_SIZE))
    ensures forall o: Op | (o.Read? || o.Write?) && o.proc == i :: Lands(Step(vm, op), o) == Lands(vm, o)
  {
    hide MoveToFront, Keys;
    var r := Ref(i, op.vaddr / PAGE_SIZE);
    if Hits(vm, r) {
      HitStack(vm, r);
      assert Backed(vm, i, op.vaddr / PAGE_SIZE);
    }
  }

  /** An access of an allowed page keeps the recent pages recent, its own page perhaps among them. */
  lemma AccessRecent(vm: Vm, i: nat, op: Op, d: set<Key>, all: set<Key>) returns (d': set<Key>)
    requires Inv(vm) && Roomy(vm) && Shape(vm) && i < |vm.pids| && Live(vm, i) && Recent(vm, d) && d <= all
    requires |all| <= Evictable(vm)
    requires (op.Read? || op.Write?) && op.proc == i && !InSharedWindow(op.vaddr / PAGE_SIZE)
    requires KeyOf(vm, i, op.vaddr / PAGE_SIZE) in all
    ensures Recent(Step(vm, op), d') && d <= d' <= all
    ensures Lands(vm, op) ==> KeyOf(vm, i, op.vaddr / PAGE_SIZE) in d'
  {
    hide Inv, Step, Stack, MoveToFront;
    var k := KeyOf(vm, i, op.vaddr / PAGE_SIZE);
    AccessStack(vm, i, op);
    d' := d;
    if Lands(vm, op) || Stack(Step(vm, op)) != Stack(vm) {
      StackSize(vm);
      OnStackIffResident(vm, Ref(i, op.vaddr / PAGE_SIZE));
      MoveLength(Stack(vm), k);
      d' := d + {k};
      SubsetSize(d', all);
      TopGrows(Stack(vm), k, d, Evictable(vm));
    }
  }

  lemma {:induction false} RunRecent(vm: Vm, i: nat, ops: seq<Op>, pages: set<nat>, d: set<Key>) returns (d': set<Key>)
    requires Inv(vm) && Roomy(vm) && Shape(vm) && i < |vm.pids| && Live(vm, i) && Accesses(ops, i, PageSet(pages))
    requires forall q | q in pages :: !InSharedWindow(q)
    requires Recent(vm, d) && d <= KeysOf(vm, i, pages) && |pages| <= Evictable(vm)
    ensures var r := Run(vm, ops);
      && Inv(r) && Roomy(r) && r.pids == vm.pids && Live(r, i) && Evictable(r) == Evictable(vm)
      && Recent(r, d') && (forall o: Op | (o.Read? || o.Write?) && o.proc == i :: Lands(r, o) == Lands(vm, o))
    ensures d <= d' <= KeysOf(vm, i, pages)
    ensures forall o | o in ops && Lands(vm, o) :: KeyOf(vm, i, o.vaddr / PAGE_SIZE) in d'
  {
    hide Inv, Step, Stack, Recent, Roomy, Live, Lands, KeysOf;
    d' := d;
    if ops != [] {
      var before, op := ops[..|ops| - 1], ops[|ops| - 1];
      assert op in ops && forall o | o in before :: o in ops;
      d' := RunRecent(vm, i, before, pages, d);
      var v := Run(vm, before);
      KeysOfSize(vm, i, pages);
      AccessFrames(v, op);
      StepInv(v, op);
      StepLive(v, op, i);
      AccessStack(v, i, op);
      KeysOfMember(vm, i, pages, op.vaddr / PAGE_SIZE);
      d' := AccessRecent(v, i, op, d', KeysOf(vm, i, pages));
    } else {
      assert Run(vm, ops) == vm;
    }
  }

  lemma KeysOfMember(vm: Vm, i: nat, pages: set<nat>, q: nat)
    requires i < |vm.pids| && q in pages
    ensures KeyOf(vm, i, q) in KeysOf(vm, i, pages)
  {}

  lemma AccessFrames(vm: Vm, op: Op)
    requires Shape(vm) && (op.Read? || op.Write?)
    ensures |Step(vm, op).mem.frames| == |vm.mem.frames|
  {}

  /** A fault is on a page not yet recent, and makes it so. */
  lemma FaultRecent(vm: Vm, i: nat, vp: nat, d: set<Key>, all: set<Key>)
    requires Inv(vm) && Shape(vm) && i < |vm.pids| && Live(vm, i) && CanTake(vm) && !InSharedWindow(vp)
    requires !Entry(vm.mem, i, vp).isValid && Recent(vm, d) && d + {KeyOf(vm, i, vp)} <= all && |all| <= Evictable(vm)
    ensures KeyOf(vm, i, vp) !in d
    ensures Recent(PageIn(vm, i, vp), d + {KeyOf(vm, i, vp)})
  {
    hide Inv, PageIn, Stack, CanTake;
    var s, k := Stack(vm), KeyOf(vm, i, vp);
    OnStackIffResident(vm, Ref(i, vp));
    var top := s[..|d|];
    assert k in d ==> k in SetOf(top);
    StackSize(vm);
    SubsetSize(d + {k}, all);
    WithoutNothing(s, {k});
    MissStack(vm, i, vp);
    TopGrows(s, k, d, Evictable(vm));
  }

  // ---- A page that stays resident keeps its bytes ---------------------------------------------------------

  lemma StayedKeepsBytes(vm: Vm, i: nat, vp: nat, q: nat)
    requires Inv(vm) && Shape(vm) && i < |vm.pids| && Live(vm, i) && CanTake(vm) && !Entry(vm.mem, i, vp).isValid
    requires !InSharedWindow(q) && q != vp && Resident(PageIn(vm, i, vp), i, q)
    ensures View(PageIn(vm, i, vp), i, q) == View(vm, i, q)
  {
    hide Inv, PageIn, CanTake, GrowTable, TakeFrame, Install, View, DirtyOrZero, Holds;
    GrowInv(vm, i, vp + 1);
    GrowView(vm, i, vp + 1, i, q);
    var vm1 := vm.(mem := GrowTable(vm.mem, i, vp + 1));
    TakeFrameView(vm1, i, q);
    PageInForm(vm, i, vp);
    var vm3 := TakeFrame(vm1).(disk := TakeFrame(vm1).disk - {KeyOf(vm, i, vp)});
    InstallEntries(vm3, i, vp, TakenFrame(vm1), View(vm, i, vp));
    PageInView(vm, i, vp, i, q);
  }

  /** Serving a fault while the code pages are among the recent ones leaves the instruction as it is. */
  lemma ServedKeepsCode(vm: Vm, i: nat, vp: nat, ip: Word, d: set<Key>)
    requires Inv(vm) && Shape(vm) && i < |vm.pids| && Live(vm, i) && CanTake(vm) && !Entry(vm.mem, i, vp).isValid
    requires Restart.PrivateCode(ip) && KeysOf(vm, i, IpPages(ip)) <= d && KeyOf(vm, i, vp) !in d
    requires Recent(PageIn(vm, i, vp), d + {KeyOf(vm, i, vp)})
    ensures Restart.SameCode(vm, PageIn(vm, i, vp), i, ip)
  {
    hide Inv, PageIn, CanTake, View, KeysOf, IpPages, Stack;
    var w := PageIn(vm, i, vp);
    PageInInv(vm, i, vp);
    PageInLive(vm, i, vp, i);
    forall n: nat | n < 12 ensures ByteAt(w, i, At(ip, n)) == ByteAt(vm, i, At(ip, n)) {
      var q := At(ip, n) / PAGE_SIZE;
      WithinCode(ip, n);
      KeysOfMember(vm, i, IpPages(ip), q);
      Restart.PrivateAt(ip, n);
      OnStackIffResident(w, Ref(i, q));
      RecentOnStack(w, d + {KeyOf(vm, i, vp)}, KeyOf(vm, i, q));
      StayedKeepsBytes(vm, i, vp, q);
    }
  }

  lemma RecentOnStack(vm: Vm, d: set<Key>, k: Key)
    requires Recent(vm, d) && k in d
    ensures k in Stack(vm)
  {
    hide Stack;
    assert k in SetOf(Stack(vm)[..|d|]);
  }

  // ---- The bound -------------------------------------------------------------------------------------------

  /** The attempt faults, and a frame can be had to serve it. */
  predicate FaultsOnce(vm: Vm, i: nat, c: Ctx)
    requires Shape(vm) && i < |vm.pids| && CtxOk(c)
  {
    hide CpuStep;
    var r := CpuStep(c, SpaceOf(vm, i));
    r.outcome.Faulted? && CanTake(vm.(mem := r.mem))
  }

  /** Memory when the fault has been served, and the context of the retry. */
  function Retry(vm: Vm, i: nat, c: Ctx): (r: (Vm, Ctx))
    requires Shape(vm) && i < |vm.pids| && CtxOk(c) && FaultsOnce(vm, i, c)
    ensures Shape(r.0) && i < |r.0.pids| && CtxOk(r.1)
  {
    hide CpuStep, PageIn;
    var r := CpuStep(c, SpaceOf(vm, i));
    (PageIn(vm.(mem := r.mem), i, r.outcome.vpage), r.ctx)
  }

  /** The instruction at ip faults n times in a row, each fault being served before the retry and no other
      process running in between. */
  ghost predicate FaultsInARow(vm: Vm, i: nat, c: Ctx, n: nat)
    requires Shape(vm) && i < |vm.pids| && CtxOk(c)
    decreases n
  {
    hide FaultsOnce, Retry;
    n == 0 || (FaultsOnce(vm, i, c) && var (w, d) := Retry(vm, i, c); FaultsInARow(w, i, d, n - 1))
  }

  predicate Fetched(vm: Vm, i: nat, ip: Word)
    requires Shape(vm) && i < |vm.pids|
  {
    Fetch(SpaceOf(vm, i), ip).Done?
  }

  /** The state in which the fetch first completes, or the one after n faults if it never does. */
  ghost function FirstFetch(vm: Vm, i: nat, c: Ctx, n: nat): (w: Vm)
    requires Shape(vm) && i < |vm.pids| && CtxOk(c)
    ensures Shape(w) && i < |w.pids|
    decreases n
  {
    hide FaultsOnce, Retry, Fetched;
    if n == 0 || Fetched(vm, i, c.ip) || !FaultsOnce(vm, i, c) then vm
    else
      var (w, d) := Retry(vm, i, c);
      FirstFetch(w, i, d, n - 1)
  }

  lemma CodePrivate(ip: Word)
    requires Restart.PrivateCode(ip)
    ensures forall q | q in IpPages(ip) :: !InSharedWindow(q)
  {
    hide At, InSharedWindow;
    Restart.AtAt(ip, 0, 0);
    Restart.PrivateAt(ip, 0);
    Restart.PrivateAt(ip, 11);
  }

  lemma PagesPrivate(vm: Vm, i: nat, c: Ctx)
    requires Shape(vm) && CtxOk(c) && InstrPrivate(c, vm, i)
    ensures forall q | q in InstrPages(c, vm, i) :: !InSharedWindow(q)
  {
    hide InstrAt, At, InSharedWindow, IpPages;
    Restart.CodeWords(c.ip);
    CodePrivate(c.ip);
    var e := InstrAt(c, vm, i);
    if e.Some? {
      forall va: Word | PrivateWord(va) ensures !InSharedWindow(va / PAGE_SIZE) && !InSharedWindow(At(va, 3) / PAGE_SIZE) {
        Restart.AtAt(va, 0, 0);
        assert Private(At(va, 0)) && Private(At(va, 3));
      }
    }
  }

  /** A completed fetch read its first and last byte, both in bounds and resident. */
  lemma FetchLands(vm: Vm, i: nat, ip: Word)
    requires Inv(vm) && Shape(vm) && i < |vm.pids| && Fetched(vm, i, ip)
    ensures var ops := FetchTrace(SpaceOf(vm, i), ip);
      && Read(i, ip) in ops && Lands(vm, Read(i, ip))
      && Read(i, At(ip, 11)) in ops && Lands(vm, Read(i, At(ip, 11)))
  {
    hide Inv, Read32, ReadTrace, IsValidVaddr, Entry, ByteAt, At;
    var sp := SpaceOf(vm, i);
    WordLands(vm, i, ip);
    Read32IsFlat(vm, i, ip);
    var v0 := vm.(mem := Read32(sp, ip).mem);
    Read32IsFlat(v0, i, At(ip, 4));
    var v1 := vm.(mem := Read32(SpaceOf(v0, i), At(ip, 4)).mem);
    WordLands(v1, i, At(ip, 8));
    Restart.AtAt(ip, 8, 3);
    var q := At(ip, 11) / PAGE_SIZE;
    assert Resident(v1, i, q) == Resident(v0, i, q) && Resident(v0, i, q) == Resident(vm, i, q);
    WholeFetch(sp, ip, Read(i, ip), Read(i, At(ip, 11)));
  }

  lemma WholeFetch(sp: Space, ip: Word, a: Op, b: Op)
    requires SpaceOk(sp) && Fetch(sp, ip).Done? && a in ReadTrace(sp, ip)
    requires var r1 := Read32(sp.(mem := Read32(sp, ip).mem), At(ip, 4)); b in ReadTrace(sp.(mem := r1.mem), At(ip, 8))
    ensures a in FetchTrace(sp, ip) && b in FetchTrace(sp, ip)
  {
    hide Read32, ReadTrace, At;
  }

  lemma FetchFirst(c: Ctx, sp: Space)
    requires SpaceOk(sp) && CtxOk(c)
    ensures forall o | o in FetchTrace(sp, c.ip) :: o in StepTrace(c, sp)
  {
    hide FetchTrace, PerformTrace, Fetch, EffectOf, RegsOk;
  }

  lemma WordLands(vm: Vm, i: nat, va: Word)
    requires Inv(vm) && Shape(vm) && i < |vm.pids| && Read32(SpaceOf(vm, i), va).Done?
    ensures var ops := ReadTrace(SpaceOf(vm, i), va);
      && Read(i, va) in ops && Lands(vm, Read(i, va))
      && Read(i, At(va, 3)) in ops && Lands(vm, Read(i, At(va, 3)))
  {
    hide Inv, ByteAt, At;
    var n := vm.sizes[i];
    ReadByteIsFlat(vm, i, va);
    var v0 := vm.(mem := ReadByte(vm.mem, i, n, va).mem);
    ReadByteIsFlat(v0, i, At(va, 1));
    var v1 := vm.(mem := ReadByte(v0.mem, i, n, At(va, 1)).mem);
    ReadByteIsFlat(v1, i, At(va, 2));
    var v2 := vm.(mem := ReadByte(v1.mem, i, n, At(va, 2)).mem);
    ReadByteIsFlat(v2, i, At(va, 3));
    assert Resident(v2, i, At(va, 3) / PAGE_SIZE) && Resident(v1, i, At(va, 3) / PAGE_SIZE);
    assert Resident(v0, i, At(va, 3) / PAGE_SIZE) && Resident(vm, i, At(va, 3) / PAGE_SIZE);
  }

  /** One faulting attempt within some private pages: what was recent stays so, the faulting page joins it, and
      so do the code pages if the fetch completed. */
  lemma AttemptRecent(vm: Vm, i: nat, c: Ctx, pages: set<nat>, d: set<Key>) returns (d1: set<Key>)
    requires Inv(vm) && Roomy(vm) && Shape(vm) && i < |vm.pids| && CtxOk(c) && Live(vm, i)
    requires InstrIn(SpaceOf(vm, i), c, PageSet(pages)) && forall q | q in pages :: !InSharedWindow(q)
    requires |pages| <= Evictable(vm) && Recent(vm, d) && d <= KeysOf(vm, i, pages)
    requires CpuStep(c, SpaceOf(vm, i)).outcome.Faulted?
    ensures var r := CpuStep(c, SpaceOf(vm, i)); var v := vm.(mem := r.mem);
      && Inv(v) && Roomy(v) && Shape(v) && Live(v, i) && CanTake(v) && Evictable(v) == Evictable(vm)
      && !Entry(v.mem, i, r.outcome.vpage).isValid
      && var k := KeyOf(vm, i, r.outcome.vpage);
         && k !in d1 && Recent(PageIn(v, i, r.outcome.vpage), d1 + {k}) && d <= d1 && d1 + {k} <= KeysOf(vm, i, pages)
    ensures Fetched(vm, i, c.ip) ==> KeysOf(vm, i, IpPages(c.ip)) <= d1
  {
    hide Inv, CpuStep, PageIn, Roomy, Recent, Live, CanTake, InstrIn, Lands, Fetched, FetchTrace, StepTrace, KeysOf;
    ReachStart(vm, i, PageSet(pages));
    ReachStep(vm, i, [], vm.mem, c, PageSet(pages));
    var ops := StepTrace(c, SpaceOf(vm, i));
    assert [] + ops == ops;
    var r := CpuStep(c, SpaceOf(vm, i));
    var v, vp := vm.(mem := r.mem), r.outcome.vpage;
    StepFault(c, SpaceOf(vm, i));
    d1 := RunRecent(vm, i, ops, pages, d);
    CanAlwaysTake(v);
    KeysOfSize(vm, i, pages);
    KeysOfMember(vm, i, pages, vp);
    FaultRecent(v, i, vp, d1, KeysOf(vm, i, pages));
    if Fetched(vm, i, c.ip) {
      FetchLands(vm, i, c.ip);
      FetchFirst(c, SpaceOf(vm, i));
      CodeKeys(vm, i, c.ip, d1);
    }
  }

  /** Served, the fault leaves the process in place. */
  lemma Served(v: Vm, i: nat, vp: nat)
    requires Inv(v) && Roomy(v) && Shape(v) && i < |v.pids| && Live(v, i) && CanTake(v) && !Entry(v.mem, i, vp).isValid
    ensures var w := PageIn(v, i, vp);
      Inv(w) && Roomy(w) && Shape(w) && w.pids == v.pids && Live(w, i) && Evictable(w) == Evictable(v)
  {
    hide Inv, PageIn;
    PageInInv(v, i, vp);
    PageInLive(v, i, vp, i);
  }

  lemma Larger(d: set<Key>, d1: set<Key>, k: Key)
    requires d <= d1 && k !in d1
    ensures |d1 + {k}| > |d|
  {
    SubsetSize(d, d1);
  }

  /** Once the fetch has completed the code pages stay recent, so the retry meets the same instruction. */
  lemma DataFault(vm: Vm, i: nat, c: Ctx, d: set<Key>) returns (d': set<Key>)
    requires Inv(vm) && Roomy(vm) && Shape(vm) && i < |vm.pids| && CtxOk(c) && Live(vm, i) && InstrPrivate(c, vm, i)
    requires InstrAt(c, vm, i).Some? ==> Restart.Retryable(InstrAt(c, vm, i).value, c)
    requires FaultsOnce(vm, i, c) && |InstrPages(c, vm, i)| <= Evictable(vm)
    requires Recent(vm, d) && d <= KeysOf(vm, i, InstrPages(c, vm, i))
    requires Fetched(vm, i, c.ip) || KeysOf(vm, i, IpPages(c.ip)) <= d
    ensures var w := Retry(vm, i, c).0;
      && Retry(vm, i, c).1 == c && Inv(w) && Roomy(w) && Live(w, i) && w.pids == vm.pids && Evictable(w) == Evictable(vm)
      && InstrAt(c, w, i) == InstrAt(c, vm, i) && Recent(w, d')
    ensures KeysOf(vm, i, IpPages(c.ip)) <= d' <= KeysOf(vm, i, InstrPages(c, vm, i)) && |d'| > |d|
  {
    hide Inv, CpuStep, PageIn, Roomy, Recent, InstrAt, Live, CanTake, Fetched, Restart.Retryable, IpPages,
         Restart.SameCode, Restart.PrivateCode, Private, At;
    var r := CpuStep(c, SpaceOf(vm, i));
    var v, vp := vm.(mem := r.mem), r.outcome.vpage;
    InstrPagesIn(vm, i, c);
    PagesPrivate(vm, i, c);
    var d1 := AttemptRecent(vm, i, c, InstrPages(c, vm, i), d);
    Restart.RetryableAnywhere(InstrAt(c, vm, i).value, c, vm, i);
    Restart.FaultKeepsCode(vm, i, c);
    Restart.CodeWords(c.ip);
    ServedKeepsCode(v, i, vp, c.ip, d1);
    Served(v, i, vp);
    SameCodeTwice(vm, v, PageIn(v, i, vp), i, c.ip);
    Restart.SameInstr(vm, PageIn(v, i, vp), i, c);
    Larger(d, d1, KeyOf(vm, i, vp));
    d' := d1 + {KeyOf(vm, i, vp)};
  }

  lemma {:induction false} DataFaults(vm: Vm, i: nat, c: Ctx, n: nat, d: set<Key>)
    requires Inv(vm) && Roomy(vm) && Shape(vm) && i < |vm.pids| && CtxOk(c) && Live(vm, i) && InstrPrivate(c, vm, i)
    requires InstrAt(c, vm, i).Some? ==> Restart.Retryable(InstrAt(c, vm, i).value, c)
    requires FaultsInARow(vm, i, c, n) && |InstrPages(c, vm, i)| <= Evictable(vm)
    requires Recent(vm, d) && d <= KeysOf(vm, i, InstrPages(c, vm, i))
    requires Fetched(vm, i, c.ip) || KeysOf(vm, i, IpPages(c.ip)) <= d
    ensures n + |d| <= |InstrPages(c, vm, i)|
    decreases n
  {
    hide Inv, Roomy, Recent, InstrAt, Live, Fetched, Restart.Retryable, IpPages, At, FaultsOnce, Retry,
         EffectPrivate, PrivateWord;
    if n == 0 {
      KeysOfSize(vm, i, InstrPages(c, vm, i));
      SubsetSize(d, KeysOf(vm, i, InstrPages(c, vm, i)));
    } else {
      var d' := DataFault(vm, i, c, d);
      DataFaults(Retry(vm, i, c).0, i, c, n - 1, d');
    }
  }

  lemma SameCodeTwice(vm: Vm, v: Vm, w: Vm, i: nat, ip: Word)
    requires Shape(vm) && Shape(v) && Shape(w) && Restart.SameCode(vm, v, i, ip) && Restart.SameCode(v, w, i, ip)
    ensures Restart.SameCode(vm, w, i, ip)
  {
    hide ByteAt, At;
    forall n: nat | n < 12 ensures ByteAt(w, i, At(ip, n)) == ByteAt(vm, i, At(ip, n)) {
      assert ByteAt(w, i, At(ip, n)) == ByteAt(v, i, At(ip, n));
    }
  }

  lemma UnfetchedPages(vm: Vm, i: nat, c: Ctx)
    requires Inv(vm) && Shape(vm) && i < |vm.pids| && CtxOk(c) && !Fetched(vm, i, c.ip)
    ensures CpuStep(c, SpaceOf(vm, i)).ctx == c && InstrIn(SpaceOf(vm, i), c, PageSet(IpPages(c.ip)))
  {
    hide Inv, Fetch, CodeIn, IpPages;
    IpPagesIn(c.ip, IpPages(c.ip));
  }

  /** An attempt whose fetch does not complete looks at code pages only. */
  lemma FetchFault(vm: Vm, i: nat, c: Ctx, d: set<Key>) returns (d': set<Key>)
    requires Inv(vm) && Roomy(vm) && Shape(vm) && i < |vm.pids| && CtxOk(c) && Live(vm, i)
    requires Restart.PrivateCode(c.ip) && |IpPages(c.ip)| <= Evictable(vm)
    requires FaultsOnce(vm, i, c) && !Fetched(vm, i, c.ip) && Recent(vm, d) && d <= KeysOf(vm, i, IpPages(c.ip))
    ensures var w := Retry(vm, i, c).0;
      && Retry(vm, i, c).1 == c && Inv(w) && Roomy(w) && Live(w, i) && w.pids == vm.pids && Evictable(w) == Evictable(vm)
      && Recent(w, d')
    ensures d' <= KeysOf(vm, i, IpPages(c.ip)) && |d'| > |d|
  {
    hide Inv, CpuStep, PageIn, Roomy, Recent, Live, CanTake, Fetched, IpPages, Restart.PrivateCode;
    var r := CpuStep(c, SpaceOf(vm, i));
    var v, vp := vm.(mem := r.mem), r.outcome.vpage;
    UnfetchedPages(vm, i, c);
    CodePrivate(c.ip);
    var d1 := AttemptRecent(vm, i, c, IpPages(c.ip), d);
    Served(v, i, vp);
    Larger(d, d1, KeyOf(vm, i, vp));
    d' := d1 + {KeyOf(vm, i, vp)};
  }

  /** A completed fetch of no instruction raises an exception other than a fault. */
  lemma FetchedNothing(vm: Vm, i: nat, c: Ctx)
    requires Inv(vm) && Shape(vm) && i < |vm.pids| && CtxOk(c) && Fetched(vm, i, c.ip) && InstrAt(c, vm, i).None?
    ensures CpuStep(c, SpaceOf(vm, i)).outcome == Crashed
  {
    hide Inv, Fetch, ByteAt, EffectOf, RegsOk;
    FetchIsFlat(vm, i, c.ip);
  }

  /** What is asked of the instruction once it is known. */
  ghost predicate CanRetry(vm: Vm, i: nat, c: Ctx)
    requires Shape(vm) && i < |vm.pids| && CtxOk(c)
  {
    Fetched(vm, i, c.ip) && InstrAt(c, vm, i).Some? ==>
      && EffectPrivate(InstrAt(c, vm, i).value) && Restart.Retryable(InstrAt(c, vm, i).value, c)
      && |InstrPages(c, vm, i)| <= Evictable(vm)
  }

  lemma {:induction false} FetchFaults(vm: Vm, i: nat, c: Ctx, n: nat, d: set<Key>)
    requires Inv(vm) && Roomy(vm) && Shape(vm) && i < |vm.pids| && CtxOk(c) && Live(vm, i)
    requires PrivateWord(c.ip) && PrivateWord(At(c.ip, 4)) && PrivateWord(At(c.ip, 8))
    requires FaultsInARow(vm, i, c, n) && CanRetry(FirstFetch(vm, i, c, n), i, c) && |IpPages(c.ip)| <= Evictable(vm)
    requires Recent(vm, d) && d <= KeysOf(vm, i, IpPages(c.ip))
    ensures n + |d| <= |InstrPages(c, FirstFetch(vm, i, c, n), i)|
    decreases n
  {
    hide Inv, FaultsOnce, Retry, Roomy, Recent, InstrAt, Live, Fetched, Restart.Retryable, IpPages, At, PrivateWord,
         EffectPrivate, Restart.PrivateCode;
    var pages := IpPages(c.ip);
    Restart.CodeWords(c.ip);
    SubsetSize(pages, InstrPages(c, FirstFetch(vm, i, c, n), i));
    if n == 0 {
      KeysOfSize(vm, i, pages);
      SubsetSize(d, KeysOf(vm, i, pages));
    } else if Fetched(vm, i, c.ip) {
      if InstrAt(c, vm, i).None? { FetchedNothing(vm, i, c); }
      KeysOfMore(vm, i, pages, InstrPages(c, vm, i));
      DataFaults(vm, i, c, n, d);
    } else {
      var d' := FetchFault(vm, i, c, d);
      FetchFaults(Retry(vm, i, c).0, i, c, n - 1, d');
    }
  }

  lemma CodeKeys(vm: Vm, i: nat, ip: Word, d: set<Key>)
    requires i < |vm.pids| && KeyOf(vm, i, ip / PAGE_SIZE) in d && KeyOf(vm, i, At(ip, 11) / PAGE_SIZE) in d
    ensures KeysOf(vm, i, IpPages(ip)) <= d
  {}

  lemma KeysOfMore(vm: Vm, i: nat, a: set<nat>, b: set<nat>)
    requires i < |vm.pids| && a <= b
    ensures KeysOf(vm, i, a) <= KeysOf(vm, i, b)
  {}

  /** An instruction of the only runnable process that, as first fetched, can be retried faults at most once per
      page: six times at most. Nothing is asked of the evictions in between: they may lose bytes, even some
      the instruction is about to read, but once fetched its own pages are the most recent ones and stay. So
      after at most six retries it completes or hits an address out of bounds. */
  lemma AtMostSixRetries(vm: Vm, i: nat, c: Ctx, n: nat)
    requires Inv(vm) && Roomy(vm) && Shape(vm) && i < |vm.pids| && CtxOk(c) && Live(vm, i)
    requires PrivateWord(c.ip) && PrivateWord(At(c.ip, 4)) && PrivateWord(At(c.ip, 8)) && |IpPages(c.ip)| <= Evictable(vm)
    requires FaultsInARow(vm, i, c, n) && CanRetry(FirstFetch(vm, i, c, n), i, c)
    ensures n <= |InstrPages(c, FirstFetch(vm, i, c, n), i)| <= 6
  {
    hide Inv, InstrPages, Roomy, Live, InstrAt, Stack, CanRetry;
    assert Stack(vm)[..0] == [];
    SixPages(c, FirstFetch(vm, i, c, n), i);
    FetchFaults(vm, i, c, n, {});
  }
}
