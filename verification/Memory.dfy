/** The state of the MMU (MMU.cpp) as a value: physical frames, the used map, the recency list and
    the page tables, with the operations the MMU class is proved to perform. The table of process i
    is tables[i], so the active-table pointer is a process index. */
module Memory {
  import opened Basics
  import opened Lru

  datatype PageEntry = PageEntry(physPage: nat, isValid: bool, isDirty: bool)
  const EMPTY_ENTRY := PageEntry(UNMAPPED, false, false)

  type Table = seq<PageEntry>

  datatype Mem = Mem(frames: seq<Page>, used: seq<bool>, lru: seq<nat>, tables: seq<Table>)

  /** The outcome of a memory access: done, PageFaultException, or any other exception. */
  datatype Access<+T> =
    | Done(mem: Mem, val: T)
    | Fault(mem: Mem, vpage: nat)
    | Error(mem: Mem)

  // ---- Address space layout (OS.cpp:20-23) ----------------------------------------------

  const CODE_BASE: nat := 0x1000
  const DATA_BASE: nat := 0x4000
  const DATA_SIZE: nat := 0x1000
  const HEAP_START: nat := 0x5000
  const HEAP_END: nat := 0x6000
  const STACK_TOP: nat := 0xF000
  const STACK_MAX: nat := 0x1000
  const SHARED_BASE: nat := 0xE000
  const NUM_SHARED: nat := 2

  predicate IsValidVaddr(codeSize: nat, vaddr: nat) {
    || CODE_BASE <= vaddr < CODE_BASE + codeSize
    || DATA_BASE <= vaddr < DATA_BASE + DATA_SIZE
    || HEAP_START <= vaddr < HEAP_END
    || STACK_TOP - STACK_MAX <= vaddr < STACK_TOP
  }

  /** The virtual pages MapSharedMem maps; they lie inside the stack window. */
  predicate InSharedWindow(vpage: nat) {
    SHARED_BASE / PAGE_SIZE <= vpage < SHARED_BASE / PAGE_SIZE + NUM_SHARED
  }

  // ---- Page tables -----------------------------------------------------------------------

  /** The entry of a page, a page beyond the table being unmapped. */
  function Entry(m: Mem, i: nat, vp: nat): PageEntry {
    if i < |m.tables| && vp < |m.tables[i]| then m.tables[i][vp] else EMPTY_ENTRY
  }

  function Grow(t: Table, n: nat): (r: Table)
    ensures |r| == if n <= |t| then |t| else n
    ensures forall k | 0 <= k < |r| :: r[k] == if k < |t| then t[k] else EMPTY_ENTRY
  {
    if n <= |t| then t else t + seq(n - |t|, _ => EMPTY_ENTRY)
  }

  function GrowTable(m: Mem, i: nat, n: nat): Mem
    requires i < |m.tables|
  {
    m.(tables := m.tables[i := Grow(m.tables[i], n)])
  }

  function SetEntry(m: Mem, i: nat, vp: nat, e: PageEntry): Mem
    requires i < |m.tables| && vp < |m.tables[i]|
  {
    m.(tables := m.tables[i := m.tables[i][vp := e]])
  }

  // ---- Frames ----------------------------------------------------------------------------

  predicate Wf(m: Mem) {
    && |m.used| == |m.frames| <= MAX_FRAMES
    && forall p | p in m.lru :: p < |m.frames|
  }

  /** The lowest free frame at or above p, or |used|. */
  function FirstFree(used: seq<bool>, p: nat): (r: nat)
    requires p <= |used|
    ensures p <= r <= |used|
    ensures r < |used| ==> !used[r]
    ensures forall q | p <= q < r :: used[q]
    decreases |used| - p
  {
    if p == |used| || !used[p] then p else FirstFree(used, p + 1)
  }

  predicate HasFree(m: Mem) {
    FirstFree(m.used, 0) < |m.used|
  }

  function TouchFrame(m: Mem, p: nat): Mem {
    m.(lru := Touch(m.lru, p))
  }

  function AllocFrame(m: Mem): Mem
    requires Wf(m) && HasFree(m)
  {
    var p := FirstFree(m.used, 0);
    m.(used := m.used[p := true], frames := m.frames[p := ZeroPage()], lru := Touch(m.lru, p))
  }

  function FreeFrame(m: Mem, p: nat): Mem
    requires p < |m.used|
  {
    m.(used := m.used[p := false], lru := Without(m.lru, {p}))
  }

  // ---- Translation and byte access (MMU.cpp:82-128) ---------------------------------------

  function Translate(m: Mem, i: nat, codeSize: nat, vaddr: Word, isWrite: bool): (r: Access<nat>)
    requires i < |m.tables|
    ensures r.Done? ==> r.val / PAGE_SIZE < |m.frames|
    ensures |r.mem.tables| == |m.tables| && |r.mem.frames| == |m.frames|
    ensures Wf(m) ==> Wf(r.mem)
  {
    var vp := vaddr / PAGE_SIZE;
    if !IsValidVaddr(codeSize, vaddr) then Error(m)
    else if vp >= |m.tables[i]| || !m.tables[i][vp].isValid then Fault(m, vp)
    else if m.tables[i][vp].physPage >= |m.frames| then Error(m)  // PhysMem::bounds_check
    else
      var e := m.tables[i][vp];
      var m1 := if isWrite then SetEntry(m, i, vp, e.(isDirty := true)) else m;
      Done(TouchFrame(m1, e.physPage), e.physPage * PAGE_SIZE + vaddr % PAGE_SIZE)
  }

  function ReadByte(m: Mem, i: nat, codeSize: nat, vaddr: Word): (r: Access<Byte>)
    requires i < |m.tables|
    ensures |r.mem.tables| == |m.tables| && |r.mem.frames| == |m.frames|
    ensures Wf(m) ==> Wf(r.mem)
  {
    match Translate(m, i, codeSize, vaddr, false)
    case Fault(m1, vp) => Fault(m1, vp)
    case Error(m1) => Error(m1)
    case Done(m1, addr) =>
      Done(m1, m1.frames[addr / PAGE_SIZE][addr % PAGE_SIZE])
  }

  function WriteByte(m: Mem, i: nat, codeSize: nat, vaddr: Word, b: Byte): (r: Access<()>)
    requires i < |m.tables|
    ensures |r.mem.tables| == |m.tables| && |r.mem.frames| == |m.frames|
    ensures Wf(m) ==> Wf(r.mem)
  {
    match Translate(m, i, codeSize, vaddr, true)
    case Fault(m1, vp) => Fault(m1, vp)
    case Error(m1) => Error(m1)
    case Done(m1, addr) =>
      var p := addr / PAGE_SIZE;
      Done(m1.(frames := m1.frames[p := m1.frames[p][addr % PAGE_SIZE := b]]), ())
  }
}
