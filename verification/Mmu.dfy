/** The MMU as the source has it: physical bytes, used map, LRU list with its position map, and page
    tables, updated in place. Each method is proved against the functions of module Memory. */
module MmuDevice {
  import opened Basics
  import opened Lru
  import opened Memory
  import P = Processor
  import Isa = Instructions

  /** How a memory operation ends for its caller. */
  datatype Res<+T> = Ok(val: T) | PageFault(vpage: nat) | Thrown

  /** What a method returned and left agrees with the specified access. */
  ghost predicate Agrees<T(!new)>(r: Res<T>, m: Mem, a: Access<T>) {
    && m == a.mem
    && match a
       case Done(_, v) => r == Ok(v)
       case Fault(_, vp) => r == Res<T>.PageFault(vp)
       case Error(_) => r == Res<T>.Thrown
  }

  /** A node of the LRU list: what lruPos_ holds an iterator to. */
  class Node {
    const page: nat

    constructor (p: nat)
      ensures page == p
    {
      page := p;
    }
  }

  class Mmu {
    const physMem: array<Byte>
    const physUsed: array<bool>
    var lruList: seq<Node>
    var lruPos: map<nat, Node>
    var tables: seq<Table>
    var active: nat
    var codeSize: nat
    ghost var mem: Mem
    ghost var history: seq<Event>

    ghost predicate ListOk()
      reads this
    {
      Linked(lruList, lruPos, mem.lru) && mem.lru == Replay(history)
    }

    ghost predicate Valid()
      reads this, physMem, physUsed
    {
      && Wf(mem) && ListOk()
      && physMem.Length == PAGE_SIZE * |mem.frames|
      && (forall f, o | 0 <= f < |mem.frames| && 0 <= o < PAGE_SIZE :: physMem[f * PAGE_SIZE + o] == mem.frames[f][o])
      && physUsed[..] == mem.used
      && tables == mem.tables
    }

    constructor (frames: nat)
      requires frames <= MAX_FRAMES
      ensures Valid() && fresh(physMem) && fresh(physUsed)
      ensures mem == Mem(seq(frames, _ => ZeroPage()), seq(frames, _ => false), [], [])
    {
      physMem := new Byte[PAGE_SIZE * frames](_ => 0);
      physUsed := new bool[frames](_ => false);
      lruList, lruPos, tables, active, codeSize := [], map[], [], 0, 0;
      mem := Mem(seq(frames, _ => ZeroPage()), seq(frames, _ => false), [], []);
      history := [];
    }

    lemma TablesAgree()
      requires Valid()
      ensures tables == mem.tables && Wf(mem)
    {}

    function NumPhysPages(): nat
      reads physUsed
    {
      physUsed.Length
    }

    // ---- Frames ------------------------------------------------------------------------------------

    method ZeroPhysPage(p: nat)
      requires Valid() && p < |mem.frames|
      modifies physMem, this`mem
      ensures Valid() && mem == old(mem).(frames := old(mem).frames[p := ZeroPage()])
    {
      WriteBytes(p, ZeroPage());
    }

    /** The byte loop of writePhysPage and zeroPhysPage. */
    method WriteBytes(p: nat, buf: Page)
      requires Valid() && p < |mem.frames|
      modifies physMem, this`mem
      ensures Valid() && mem == old(mem).(frames := old(mem).frames[p := buf])
    {
      var i := 0;
      while i < PAGE_SIZE
        invariant 0 <= i <= PAGE_SIZE
        invariant forall o | 0 <= o < i :: physMem[p * PAGE_SIZE + o] == buf[o]
        invariant forall x | 0 <= x < physMem.Length && !(p * PAGE_SIZE <= x < p * PAGE_SIZE + i) :: physMem[x] == old(physMem[x])
        invariant mem == old(mem)
      {
        physMem[p * PAGE_SIZE + i] := buf[i];
        i := i + 1;
      }
      mem := mem.(frames := mem.frames[p := buf]);
      forall f, o | 0 <= f < |mem.frames| && 0 <= o < PAGE_SIZE ensures physMem[f * PAGE_SIZE + o] == mem.frames[f][o] {
        assert old(physMem[f * PAGE_SIZE + o]) == old(mem).frames[f][o];
      }
    }

    method WritePhysPage(p: nat, buf: Page)
      requires Valid() && p < |mem.frames|
      modifies physMem, this`mem
      ensures Valid() && mem == old(mem).(frames := old(mem).frames[p := buf])
    {
      WriteBytes(p, buf);
    }

    method ReadPhysPage(p: nat) returns (buf: Page)
      requires Valid() && p < |mem.frames|
      ensures buf == mem.frames[p]
    {
      var bytes: seq<Byte> := [];
      var i := 0;
      while i < PAGE_SIZE
        invariant 0 <= i <= PAGE_SIZE && |bytes| == i
        invariant forall o | 0 <= o < i :: bytes[o] == mem.frames[p][o]
      {
        bytes := bytes + [physMem[p * PAGE_SIZE + i]];
        i := i + 1;
      }
      assert bytes == mem.frames[p];
      buf := bytes;
    }

    /** The lowest free frame, zeroed and most recently used, or an exception when memory is full. */
    method AllocPhysPage() returns (r: Option<nat>)
      requires Valid()
      modifies this`mem, this`lruList, this`lruPos, this`history, physMem, physUsed
      ensures Valid()
      ensures r.Some? <==> HasFree(old(mem))
      ensures r.Some? ==> r.value == FirstFree(old(mem).used, 0) && mem == AllocFrame(old(mem))
      ensures r.None? ==> mem == old(mem)
    {
      var p := 0;
      while p < physUsed.Length && physUsed[p]
        invariant 0 <= p <= physUsed.Length
        invariant FirstFree(mem.used, p) == FirstFree(mem.used, 0)
      {
        p := p + 1;
      }
      if p == physUsed.Length { return None; }
      physUsed[p] := true;
      mem := mem.(used := mem.used[p := true]);
      ZeroPhysPage(p);
      TouchPhysPage(p);
      r := Some(p);
    }

    /** Frame p is free again; out of range it throws. */
    method FreePhysPage(p: nat) returns (ok: bool)
      requires Valid()
      modifies this`mem, this`lruList, this`lruPos, this`history, physUsed
      ensures Valid() && ok == (p < |old(mem).frames|)
      ensures mem == if ok then FreeFrame(old(mem), p) else old(mem)
    {
      if p >= physUsed.Length { return false; }
      physUsed[p] := false;
      mem := mem.(used := mem.used[p := false]);
      RemoveLRUEntry(p);
      ok := true;
    }

    // ---- The LRU list (front most recent) -----------------------------------------------------------

    method RemoveLRUEntry(p: nat)
      requires ListOk() && Wf(mem)
      modifies this`mem, this`lruList, this`lruPos, this`history
      ensures ListOk() && mem == old(mem).(lru := Without(old(mem).lru, {p})) && history == old(history) + [Dropped(p)]
    {
      ReplayMore(history, Dropped(p));
      if p in lruPos {
        LinkedErase(lruList, lruPos, mem.lru, p);
        lruList := Erased(lruList, lruPos[p]);
        lruPos := lruPos - {p};
      } else {
        LinkedWithout(lruList, lruPos, mem.lru, p);
      }
      mem := mem.(lru := Without(mem.lru, {p}));
      history := history + [Dropped(p)];
    }

    method TouchPhysPage(p: nat)
      requires ListOk() && Wf(mem) && p < |mem.frames|
      modifies this`mem, this`lruList, this`lruPos, this`history
      ensures ListOk() && Wf(mem) && mem == TouchFrame(old(mem), p) && history == old(history) + [Touched(p)]
    {
      hide Linked, Replay, Wf;
      ReplayMore(history, Touched(p));
      TouchStaysWf(mem, p);
      WithoutMembers(mem.lru, {p});
      ghost var rest := lruPos - {p};
      if p in lruPos {
        LinkedErase(lruList, lruPos, mem.lru, p);
        lruList := Erased(lruList, lruPos[p]);
      } else {
        LinkedWithout(lruList, lruPos, mem.lru, p);
        assert rest == lruPos;
      }
      var node := new Node(p);
      LinkedPush(lruList, rest, Without(mem.lru, {p}), node);
      UpdateOver(lruPos, p, node);
      lruList := [node] + lruList;
      lruPos := lruPos[p := node];
      mem := TouchFrame(mem, p);
      history := history + [Touched(p)];
    }

    /** The frame touched longest ago that is not pinned, or an exception when all are. */
    method GetLRUPhysPage(pinned: seq<nat>) returns (r: Option<nat>)
      requires Valid()
      ensures r == Victim(mem.lru, pinned)
      ensures forall q | r.Some? && q in mem.lru && q !in pinned && q != r.value ::
                LastTouch(history, r.value) < LastTouch(history, q)
    {
      hide Linked, Replay, LastTouch;
      var k := |lruList|;
      LinkedPages(lruList, lruPos, mem.lru);
      assert mem.lru[..k] == mem.lru;
      while k > 0
        invariant 0 <= k <= |lruList|
        invariant Victim(mem.lru[..k], pinned) == Victim(mem.lru, pinned)
      {
        var pp := lruList[k - 1].page;
        assert mem.lru[..k][..k - 1] == mem.lru[..k - 1];
        if pp !in pinned {
          OldestFirst(history, pinned);
          return Some(pp);
        }
        k := k - 1;
      }
      r := None;
    }

    // ---- Page tables and translation -------------------------------------------------------------------

    method SetEntry(i: nat, vp: nat, e: PageEntry)
      requires Valid() && i < |tables| && vp < |tables[i]|
      modifies this`tables, this`mem
      ensures Valid() && mem == Memory.SetEntry(old(mem), i, vp, e)
    {
      tables := tables[i := tables[i][vp := e]];
      mem := Memory.SetEntry(mem, i, vp, e);
    }

    /** setPageTable and setBounds: the process whose table and code size are in force. */
    method SetActive(i: nat, size: nat)
      requires Valid()
      modifies this`active, this`codeSize
      ensures Valid() && active == i && codeSize == size
    {
      active, codeSize := i, size;
    }

    /** The page table of a new process, every page unmapped. */
    method AddTable(n: nat)
      requires Valid()
      modifies this`tables, this`mem
      ensures Valid() && mem == old(mem).(tables := old(mem).tables + [Grow([], n)])
    {
      tables := tables + [Grow([], n)];
      mem := mem.(tables := mem.tables + [Grow([], n)]);
    }

    method DropTable()
      requires Valid() && |tables| > 0
      modifies this`tables, this`mem
      ensures Valid() && mem == old(mem).(tables := old(mem).tables[..|old(mem).tables| - 1])
    {
      tables := tables[..|tables| - 1];
      mem := mem.(tables := mem.tables[..|mem.tables| - 1]);
    }

    /** pageTable.clear() */
    method ClearTable(i: nat)
      requires Valid() && i < |tables|
      modifies this`tables, this`mem
      ensures Valid() && mem == old(mem).(tables := old(mem).tables[i := []])
    {
      tables := tables[i := []];
      mem := mem.(tables := mem.tables[i := []]);
    }

    method Resize(i: nat, n: nat)
      requires Valid() && i < |tables|
      modifies this`tables, this`mem
      ensures Valid() && mem == GrowTable(old(mem), i, n)
    {
      if n > |tables[i]| {
        tables := tables[i := tables[i] + seq(n - |tables[i]|, _ => EMPTY_ENTRY)];
      }
      mem := GrowTable(mem, i, n);
    }

    method MapPageInto(i: nat, vp: nat, pp: nat) returns (vaddr: nat)
      requires Valid() && i < |tables|
      modifies this`tables, this`mem
      ensures Valid() && vaddr == vp * PAGE_SIZE
      ensures mem == Memory.SetEntry(GrowTable(old(mem), i, vp + 1), i, vp, PageEntry(pp, true, false))
    {
      Resize(i, vp + 1);
      SetEntry(i, vp, PageEntry(pp, true, false));
      vaddr := vp * PAGE_SIZE;
    }

    method Translate(vaddr: Word, isWrite: bool) returns (r: Res<nat>)
      requires Valid() && active < |tables|
      modifies this`tables, this`mem, this`lruList, this`lruPos, this`history
      ensures Valid() && Agrees(r, mem, Memory.Translate(old(mem), active, codeSize, vaddr, isWrite))
    {
      if !IsValidVaddr(codeSize, vaddr) { return Thrown; }
      var vpage, offset := vaddr / PAGE_SIZE, vaddr % PAGE_SIZE;
      if vpage >= |tables[active]| { return PageFault(vpage); }
      var entry := tables[active][vpage];
      if !entry.isValid { return PageFault(vpage); }
      if entry.physPage >= NumPhysPages() { return Thrown; }
      if isWrite {
        SetEntry(active, vpage, entry.(isDirty := true));
      }
      TouchPhysPage(entry.physPage);
      r := Ok(entry.physPage * PAGE_SIZE + offset);
    }

    method Read8(vaddr: Word) returns (r: Res<Byte>)
      requires Valid() && active < |tables|
      modifies this`tables, this`mem, this`lruList, this`lruPos, this`history
      ensures Valid() && Agrees(r, mem, ReadByte(old(mem), active, codeSize, vaddr))
    {
      var t := Translate(vaddr, false);
      match t
      case PageFault(vp) => r := Res.PageFault(vp);
      case Thrown => r := Thrown;
      case Ok(addr) =>
        assert addr == addr / PAGE_SIZE * PAGE_SIZE + addr % PAGE_SIZE;
        r := Ok(physMem[addr]);
    }

    method StoreByte(p: nat, o: nat, v: Byte)
      requires Valid() && p < |mem.frames| && o < PAGE_SIZE
      modifies this`mem, physMem
      ensures Valid() && mem == old(mem).(frames := old(mem).frames[p := old(mem).frames[p][o := v]])
    {
      physMem[p * PAGE_SIZE + o] := v;
      mem := mem.(frames := mem.frames[p := mem.frames[p][o := v]]);
    }

    method Write8(vaddr: Word, v: Byte) returns (r: Res<()>)
      requires Valid() && active < |tables|
      modifies this`tables, this`mem, this`lruList, this`lruPos, this`history, physMem
      ensures Valid() && Agrees(r, mem, WriteByte(old(mem), active, codeSize, vaddr, v))
    {
      var t := Translate(vaddr, true);
      match t
      case PageFault(vp) => r := Res.PageFault(vp);
      case Thrown => r := Thrown;
      case Ok(addr) =>
        StoreByte(addr / PAGE_SIZE, addr % PAGE_SIZE, v);
        r := Ok(());
    }

    ghost function Space(): P.Space
      reads this
    {
      P.Space(mem, active, codeSize)
    }

    method Read32(vaddr: Word) returns (r: Res<Word>)
      requires Valid() && active < |tables|
      modifies this`tables, this`mem, this`lruList, this`lruPos, this`history
      ensures Valid() && active < |tables| && Agrees(r, mem, P.Read32(old(Space()), vaddr))
    {
      hide Linked, Replay, Wf, ReadByte;
      var b0 := Read8(vaddr);
      if !b0.Ok? { return Rethrown(b0); }
      var b1 := Read8(P.At(vaddr, 1));
      if !b1.Ok? { return Rethrown(b1); }
      var b2 := Read8(P.At(vaddr, 2));
      if !b2.Ok? { return Rethrown(b2); }
      var b3 := Read8(P.At(vaddr, 3));
      if !b3.Ok? { return Rethrown(b3); }
      r := Ok(Isa.FromBytes(b0.val, b1.val, b2.val, b3.val));
    }

    method Write32(vaddr: Word, w: Word) returns (r: Res<()>)
      requires Valid() && active < |tables|
      modifies this`tables, this`mem, this`lruList, this`lruPos, this`history, physMem
      ensures Valid() && active < |tables| && Agrees(r, mem, P.Write32(old(Space()), vaddr, w))
    {
      hide Linked, Replay, Wf, WriteByte, Isa.WordByte;
      ghost var sp := Space();
      assert P.WriteBytes(sp, vaddr, w, 0) == Done(mem, ()) && P.At(vaddr, 0) == vaddr;
      r := Write8(vaddr, Isa.WordByte(w, 0));
      WriteStopped(sp, vaddr, w, 1);
      if !r.Ok? { return; }
      r := Write8(P.At(vaddr, 1), Isa.WordByte(w, 1));
      WriteStopped(sp, vaddr, w, 2);
      if !r.Ok? { return; }
      r := Write8(P.At(vaddr, 2), Isa.WordByte(w, 2));
      WriteStopped(sp, vaddr, w, 3);
      if !r.Ok? { return; }
      r := Write8(P.At(vaddr, 3), Isa.WordByte(w, 3));
    }
  }

  /** An exception passed on. */
  function Rethrown<T, U>(r: Res<T>): Res<U>
    requires !r.Ok?
  {
    match r
    case PageFault(vp) => PageFault(vp)
    case Thrown => Thrown
  }

  /** Once a byte of a word write throws, the rest of the word is not written. */
  lemma {:induction false} WriteStopped(sp: P.Space, va: Word, w: Word, k: nat)
    requires P.SpaceOk(sp) && k <= 4
    ensures !P.WriteBytes(sp, va, w, k).Done? ==> P.WriteBytes(sp, va, w, 4) == P.WriteBytes(sp, va, w, k)
    decreases 4 - k
  {
    if k < 4 { WriteStopped(sp, va, w, k + 1); }
  }

  // ---- The list and its position map ---------------------------------------------------------------------

  /** The list holds one node per page of lru, in that order, and pos leads from each page to its node. */
  ghost predicate Linked(l: seq<Node>, pos: map<nat, Node>, lru: seq<nat>) {
    && |l| == |lru| && NoDup(lru)
    && (forall k | 0 <= k < |l| :: l[k].page == lru[k] && lru[k] in pos && pos[lru[k]] == l[k])
    && (forall p | p in pos :: pos[p] in l && pos[p].page == p)
  }

  /** A list without one of its nodes. */
  function Erased(l: seq<Node>, n: Node): seq<Node> {
    if l == [] then [] else if l[0] == n then Erased(l[1..], n) else [l[0]] + Erased(l[1..], n)
  }

  lemma {:induction false} ErasedAt(l: seq<Node>, k: nat)
    requires k < |l| && forall j | 0 <= j < |l| && j != k :: l[j] != l[k]
    ensures Erased(l, l[k]) == l[..k] + l[k + 1..]
  {
    if k == 0 {
      ErasedNone(l[1..], l[0]);
    } else {
      assert l[0] != l[k] && l[1..][k - 1] == l[k];
      forall j | 0 <= j < |l[1..]| && j != k - 1 ensures l[1..][j] != l[1..][k - 1] { assert l[j + 1] != l[k]; }
      ErasedAt(l[1..], k - 1);
      assert [l[0]] + l[1..][..k - 1] == l[..k];
    }
  }

  lemma {:induction false} ErasedNone(l: seq<Node>, n: Node)
    requires n !in l
    ensures Erased(l, n) == l
  {
    if l != [] {
      assert l[0] in l;
      ErasedNone(l[1..], n);
    }
  }

  /** list::erase through the position map takes out exactly page p. */
  lemma LinkedErase(l: seq<Node>, pos: map<nat, Node>, lru: seq<nat>, p: nat)
    requires Linked(l, pos, lru) && p in pos
    ensures Linked(Erased(l, pos[p]), pos - {p}, Without(lru, {p}))
  {
    var k :| 0 <= k < |l| && l[k] == pos[p];
    assert lru[k] == p;
    forall j | 0 <= j < |l| && j != k ensures l[j] != l[k] { assert l[j].page == lru[j] && lru[j] != lru[k]; }
    ErasedAt(l, k);
    WithoutAt(lru, k);
    LinkedCut(l, pos, lru, k);
  }

  /** Position j of a list with its k-th element cut out. */
  function Skip(j: int, k: int): int {
    if j < k then j else j + 1
  }

  lemma CutAt<T>(s: seq<T>, k: nat, j: nat)
    requires k < |s| && j < |s| - 1
    ensures (s[..k] + s[k + 1..])[j] == s[Skip(j, k)]
  {}

  lemma CutHas<T>(s: seq<T>, k: nat, i: nat)
    requires k < |s| && i < |s| && i != k
    ensures s[i] in s[..k] + s[k + 1..]
  {
    var t := s[..k] + s[k + 1..];
    assert t[if i < k then i else i - 1] == s[i];
  }

  lemma LinkedCut(l: seq<Node>, pos: map<nat, Node>, lru: seq<nat>, k: nat)
    requires Linked(l, pos, lru) && k < |l|
    ensures Linked(l[..k] + l[k + 1..], pos - {lru[k]}, lru[..k] + lru[k + 1..])
  {
    var l', lru' := l[..k] + l[k + 1..], lru[..k] + lru[k + 1..];
    forall p | p in pos && p != lru[k] ensures pos[p] in l' {
      var j :| 0 <= j < |l| && l[j] == pos[p];
      CutHas(l, k, j);
    }
    forall j | 0 <= j < |l'| ensures l'[j] == l[Skip(j, k)] && lru'[j] == lru[Skip(j, k)] {
      CutAt(l, k, j);
      CutAt(lru, k, j);
    }
    CutNoDup(lru, lru', k);
  }

  lemma CutNoDup(s: seq<nat>, t: seq<nat>, k: nat)
    requires NoDup(s) && k < |s| && |t| == |s| - 1 && forall j | 0 <= j < |t| :: t[j] == s[Skip(j, k)]
    ensures NoDup(t)
  {}

  lemma LinkedWithout(l: seq<Node>, pos: map<nat, Node>, lru: seq<nat>, p: nat)
    requires Linked(l, pos, lru) && p !in pos
    ensures Without(lru, {p}) == lru && pos - {p} == pos
  {
    WithoutNothing(lru, {p});
  }

  lemma LinkedPages(l: seq<Node>, pos: map<nat, Node>, lru: seq<nat>)
    requires Linked(l, pos, lru)
    ensures |l| == |lru| && forall k | 0 <= k < |l| :: l[k].page == lru[k]
  {}

  lemma UpdateOver(pos: map<nat, Node>, p: nat, n: Node)
    ensures pos[p := n] == (pos - {p})[p := n]
  {}

  lemma TouchStaysWf(m: Mem, p: nat)
    requires Wf(m) && p < |m.frames|
    ensures Wf(TouchFrame(m, p))
  {
    WithoutMembers(m.lru, {p});
  }

  lemma LinkedPush(l: seq<Node>, pos: map<nat, Node>, lru: seq<nat>, n: Node)
    requires Linked(l, pos, lru) && n.page !in lru && n.page !in pos
    ensures Linked([n] + l, pos[n.page := n], [n.page] + lru)
  {
    var l', pos' := [n] + l, pos[n.page := n];
    forall p | p in pos' ensures pos'[p] in l' {
      if p != n.page {
        var j :| 0 <= j < |l| && l[j] == pos[p];
        assert l'[j + 1] == l[j];
      }
    }
  }

  lemma OldestFirst(h: seq<Event>, pinned: seq<nat>)
    requires Victim(Replay(h), pinned).Some?
    ensures var v := Victim(Replay(h), pinned).value;
      forall q | q in Replay(h) && q !in pinned && q != v :: LastTouch(h, v) < LastTouch(h, q)
  {
    var v := Victim(Replay(h), pinned).value;
    forall q | q in Replay(h) && q !in pinned && q != v ensures LastTouch(h, v) < LastTouch(h, q) {
      VictimIsOldest(h, pinned, q);
    }
  }

  lemma ReplayMore(h: seq<Event>, e: Event)
    ensures Replay(h + [e]) == if e.Touched? then Touch(Replay(h), e.page) else Without(Replay(h), {e.page})
  {
    assert (h + [e])[..|h|] == h;
  }
}
