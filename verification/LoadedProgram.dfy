/** From assembler to CPU: what was emitted is what is fetched. */
module LoadedProgram {
  import opened Basics
  import opened Memory
  import opened Paging
  import opened FrameInvariant
  import opened FlatMemory
  import opened Instructions
  import opened Processor
  import opened FlatInstructions

  /** Registers the assembler accepts pass the CPU's checks. */
  lemma OperandsPass(op: Opcode, args: seq<Operand>)
    requires Operands(op, args).Some?
    ensures RegsOk(op, Operands(op, args).value.0, Operands(op, args).value.1)
  {}

  /** The mnemonics without operands, with a register or an immediate alone, with a register and an immediate, and with
      two registers (PROGRAM.CPP:69-159). */
  predicate OperandsFit(line: Line) {
    var first, second := if |line.args| >= 1 then Some(line.args[0]) else None, if |line.args| >= 2 then Some(line.args[1]) else None;
    match line.op
    case Exit | Ret => true
    case Incr | Printr | Printm | Printcr | Printcm | Pushr | Popr | Popm | Jmp | Jlt | Jgt | Je | Call | Callm | Sleep | Input
       | Inputc | FreeMemory | AcquireLock | ReleaseLock | SignalEvent | WaitEvent => IsRegister(first)
    case Jmpi | Jmpa | Jlti | Jlta | Jgti | Jgta | Jei | Jea | Pushi | Setpriorityi
       | AcquireLockI | ReleaseLockI | SignalEventI | WaitEventI => first.Some? && first.value.Imm?
    case Movi | Addi | Cmpi | Setpriority => IsRegister(first) && second.Some? && second.value.Imm?
    case Movr | Movmr | Movrm | Movmm | Addr | Cmpr | Alloc | MapSharedMem => IsRegister(first) && IsRegister(second)
  }

  predicate IsRegister(o: Option<Operand>) {
    o.Some? && o.value.Reg? && 1 <= o.value.n <= 10
  }

  /** The number a word of the instruction holds for an operand. */
  function OperandValue(o: Operand): int {
    match o
    case Reg(n) => n
    case Imm(w) => w
  }

  /** The operands of a line, first and second, with zero where its mnemonic takes none. */
  function OperandWords(line: Line): (int, int)
    requires OperandsFit(line)
  {
    (if line.op in {Opcode.Exit, Ret} then 0 else OperandValue(line.args[0]),
     if line.op in {Movi, Addi, Cmpi, Setpriority, Movr, Movmr, Movrm, Movmm, Addr, Cmpr, Opcode.Alloc, Opcode.MapSharedMem}
     then OperandValue(line.args[1]) else 0)
  }

  /** A line assembles exactly when its operands fit its mnemonic. Its twelve bytes are then the number of the opcode, its
      first operand and its second, lowest byte first, with zero where the mnemonic takes no such operand. */
  lemma LineBytes(line: Line)
    ensures AssembleLine(line).Some? <==> OperandsFit(line)
    ensures AssembleLine(line).Some? ==>
              var bytes, (a, b) := AssembleLine(line).value, OperandWords(line);
              && FromBytes(bytes[0], bytes[1], bytes[2], bytes[3]) == Code(line.op)
              && FromBytes(bytes[4], bytes[5], bytes[6], bytes[7]) == a
              && FromBytes(bytes[8], bytes[9], bytes[10], bytes[11]) == b
  {
    hide FromBytes, Operands, OperandsFit, OperandWords, Code, Emit32;
    OperandsMean(line);
    if AssembleLine(line).Some? {
      var (a, b) := Operands(line.op, line.args).value;
      WordsBack(Code(line.op), a, b);
    }
  }

  lemma OperandsMean(line: Line)
    ensures Operands(line.op, line.args).Some? <==> OperandsFit(line)
    ensures OperandsFit(line) ==> Operands(line.op, line.args).value == OperandWords(line)
  {}

  lemma WordsBack(x: Word, y: Word, z: Word)
    ensures var bytes := Emit32(x) + Emit32(y) + Emit32(z);
      && |bytes| == 12 && FromBytes(bytes[0], bytes[1], bytes[2], bytes[3]) == x
      && FromBytes(bytes[4], bytes[5], bytes[6], bytes[7]) == y
      && FromBytes(bytes[8], bytes[9], bytes[10], bytes[11]) == z
  {
    hide FromBytes, WordByte;
    WordRoundTrip(x);
    WordRoundTrip(y);
    WordRoundTrip(z);
  }

  /** The line has this mnemonic, and its operands these words where it takes them. */
  predicate Spells(line: Line, op: Opcode, a: Word, b: Word) {
    && line.op == op && OperandsFit(line)
    && (op in {Opcode.Exit, Ret} || OperandWords(line).0 == a)
    && (op in {Movi, Addi, Cmpi, Movr, Movmr, Movrm, Movmm, Addr, Cmpr, Opcode.Alloc, Opcode.MapSharedMem} ==>
          OperandWords(line).1 == b)
  }

  /** The CPU throws for a register exactly where no line of assembly could have put it there; only of Setpriority, which
      does nothing, it accepts any. */
  lemma CheckedIffSpelled(op: Opcode, a: Word, b: Word)
    requires op != Opcode.Setpriority
    ensures RegsOk(op, a, b) <==> exists line :: Spells(line, op, a, b)
  {
    hide RegsOk, Spells, Spelling;
    if RegsOk(op, a, b) { SpellingFits(op, a, b); }
    if line :| Spells(line, op, a, b) { SpelledPasses(line, op, a, b); }
  }

  lemma SpelledPasses(line: Line, op: Opcode, a: Word, b: Word)
    requires Spells(line, op, a, b)
    ensures RegsOk(op, a, b)
  {
    hide OperandsFit, OperandWords;
    OperandsMean(line);
    hide Operands;
    OperandsPass(line.op, line.args);
    SameCheck(op, a, b, OperandWords(line).0, OperandWords(line).1);
  }

  /** What the check looks at. */
  lemma SameCheck(op: Opcode, a: Word, b: Word, x: Word, y: Word)
    requires RegsOk(op, x, y) && (op in {Opcode.Exit, Ret} || x == a)
    requires op in {Movr, Movmr, Movrm, Movmm, Addr, Cmpr, Opcode.Alloc, Opcode.MapSharedMem} ==> y == b
    ensures RegsOk(op, a, b)
  {}

  lemma SpellingFits(op: Opcode, a: Word, b: Word)
    requires op != Opcode.Setpriority && RegsOk(op, a, b)
    ensures Spells(Spelling(op, a, b), op, a, b)
  {}

  function Spelling(op: Opcode, a: Word, b: Word): Line {
    match op
    case Exit | Ret => Line(op, [])
    case Jmpi | Jmpa | Jlti | Jlta | Jgti | Jgta | Jei | Jea | Pushi | Setpriorityi
       | AcquireLockI | ReleaseLockI | SignalEventI | WaitEventI => Line(op, [Imm(a)])
    case Movi | Addi | Cmpi => Line(op, [Reg(a), Imm(b)])
    case _ => Line(op, [Reg(a), Reg(b)])
  }

  lemma {:induction false} WriteCodeRest(m: Mem, i: nat, codeSize: nat, code: seq<Byte>, n: nat)
    requires i < |m.tables| && n <= |code| <= 0xE000
    ensures forall q: nat :: Entry(WriteCode(m, i, codeSize, code, n).mem, i, q).isValid == Entry(m, i, q).isValid
  {
    if n > 0 { WriteCodeRest(m, i, codeSize, code, n - 1); }
  }

  /** Right after loading, every code page is resident. */
  lemma CodeResident(vm: Vm, code: seq<Byte>)
    requires Inv(vm) && |code| <= 0xE000 && Create(vm, code).1
    ensures var r := Create(vm, code).0;
      && |code| > 0 && |r.pids| == |vm.pids| + 1 && r.sizes[|vm.pids|] == |code|
      && forall x: nat | CODE_BASE <= x < CODE_BASE + |code| :: Entry(r.mem, |vm.pids|, x / PAGE_SIZE).isValid
  {
    hide Inv, LoadPages, WriteCode;
    InvShape(vm);
    var i, vm1 := |vm.pids|, AddProcess(vm, |code|);
    var n := (CODE_BASE + |code| - 1) / PAGE_SIZE - CODE_PAGE + 1;
    LoadPagesEffect(vm1, i, CODE_PAGE, n);
    var vm2 := LoadPages(vm1, i, CODE_PAGE, n).0;
    WriteCodeRest(vm2.mem, i, |code|, code, |code|);
    forall x: nat | CODE_BASE <= x < CODE_BASE + |code| ensures Entry(Create(vm, code).0.mem, i, x / PAGE_SIZE).isValid {
      assert CODE_PAGE <= x / PAGE_SIZE < CODE_PAGE + n;
    }
  }

  // ---- Reads that cannot fault -----------------------------------------------------------------------

  /** n bytes from va on are in bounds and resident. */
  ghost predicate Mapped(vm: Vm, i: nat, va: Word, n: nat)
    requires Shape(vm) && i < |vm.pids|
  {
    forall k: nat | k < n :: IsValidVaddr(vm.sizes[i], At(va, k)) && Resident(vm, i, At(va, k) / PAGE_SIZE)
  }

  lemma ByteReadable(vm: Vm, i: nat, va: Word)
    requires Inv(vm) && Shape(vm) && i < |vm.pids| && IsValidVaddr(vm.sizes[i], va) && Resident(vm, i, va / PAGE_SIZE)
    ensures ReadByte(vm.mem, i, vm.sizes[i], va).Done?
  {
    TranslateInv(vm, i, vm.sizes[i], va, false);
  }

  lemma WordReadable(vm: Vm, i: nat, va: Word)
    requires Inv(vm) && Shape(vm) && i < |vm.pids| && Mapped(vm, i, va, 4)
    ensures Read32(SpaceOf(vm, i), va).Done?
  {
    hide Inv, ReadByte, ByteAt, At, Resident, IsValidVaddr;
    assert At(va, 0) == va by { AtZero(va); }
    ByteReadable(vm, i, va);
    ReadByteIsFlat(vm, i, va);
    var v0 := vm.(mem := ReadByte(vm.mem, i, vm.sizes[i], va).mem);
    ByteReadable(v0, i, At(va, 1));
    ReadByteIsFlat(v0, i, At(va, 1));
    var v1 := vm.(mem := ReadByte(v0.mem, i, vm.sizes[i], At(va, 1)).mem);
    ByteReadable(v1, i, At(va, 2));
    ReadByteIsFlat(v1, i, At(va, 2));
    var v2 := vm.(mem := ReadByte(v1.mem, i, vm.sizes[i], At(va, 2)).mem);
    ByteReadable(v2, i, At(va, 3));
  }

  lemma AtZero(va: Word)
    ensures At(va, 0) == va
  {}

  lemma FetchReadable(vm: Vm, i: nat, ip: Word)
    requires Inv(vm) && Shape(vm) && i < |vm.pids| && Mapped(vm, i, ip, 4) && Mapped(vm, i, At(ip, 4), 4) && Mapped(vm, i, At(ip, 8), 4)
    ensures Fetch(SpaceOf(vm, i), ip).Done?
  {
    hide Inv, Read32, ByteAt, At, Resident, IsValidVaddr;
    WordReadable(vm, i, ip);
    Read32IsFlat(vm, i, ip);
    var v0 := vm.(mem := Read32(SpaceOf(vm, i), ip).mem);
    WordReadable(v0, i, At(ip, 4));
    Read32IsFlat(v0, i, At(ip, 4));
    var v1 := vm.(mem := Read32(SpaceOf(v0, i), At(ip, 4)).mem);
    WordReadable(v1, i, At(ip, 8));
  }

  // ---- The round trip ----------------------------------------------------------------------------------

  lemma LoadedByte(vm: Vm, code: seq<Byte>, n: nat)
    requires Inv(vm) && Shape(vm) && 0 <= n < |code| <= 0xE000 && Create(vm, code).1
    ensures ByteAt(Create(vm, code).0, |vm.pids|, CODE_BASE + n) == code[n]
  {
    hide Inv, Create;
    NoProcessOwn(vm, |vm.pids|, (CODE_BASE + n) / PAGE_SIZE);
    CreateView(vm, code, |vm.pids|, (CODE_BASE + n) / PAGE_SIZE);
  }

  /** Four bytes of the image that encode a word are read as that word. */
  lemma LoadedWord(vm: Vm, code: seq<Byte>, n: nat, w: Word)
    requires Inv(vm) && Shape(vm) && n + 4 <= |code| <= 0xE000 && Create(vm, code).1
    requires code[n..n + 4] == Emit32(w)
    ensures WordAt(Create(vm, code).0, |vm.pids|, CODE_BASE + n) == w
    ensures Mapped(Create(vm, code).0, |vm.pids|, CODE_BASE + n, 4)
  {
    hide Inv, Create, ByteAt, FromBytes, WordByte;
    var r, i := Create(vm, code).0, |vm.pids|;
    CodeResident(vm, code);
    forall k: nat | k < 4
      ensures ByteAt(r, i, At(CODE_BASE + n, k)) == WordByte(w, k)
      ensures IsValidVaddr(r.sizes[i], At(CODE_BASE + n, k)) && Resident(r, i, At(CODE_BASE + n, k) / PAGE_SIZE)
    {
      LoadedByte(vm, code, n + k);
      assert code[n..n + 4][k] == code[n + k];
      assert At(CODE_BASE + n, k) == CODE_BASE + (n + k);
    }
    AtZero(CODE_BASE + n);
    WordRoundTrip(w);
  }

  lemma LineWords(bytes: seq<Byte>, n: nat, x: Word, y: Word, z: Word)
    requires n + 12 <= |bytes| && bytes[n..n + 12] == Emit32(x) + Emit32(y) + Emit32(z)
    ensures bytes[n..n + 4] == Emit32(x) && bytes[n + 4..n + 8] == Emit32(y) && bytes[n + 8..n + 12] == Emit32(z)
  {
    hide Emit32;
    ThreeWords(bytes[n..n + 12], Emit32(x), Emit32(y), Emit32(z));
    SliceOfSlice(bytes, n, 0);
    SliceOfSlice(bytes, n, 4);
    SliceOfSlice(bytes, n, 8);
    var line := bytes[n..n + 12];
    assert line[0..4] == line[..4] && line[8..12] == line[8..];
  }

  lemma SliceOfSlice(bytes: seq<Byte>, n: nat, j: nat)
    requires n + 12 <= |bytes| && j <= 8
    ensures bytes[n..n + 12][j..j + 4] == bytes[n + j..n + j + 4]
  {
    var l, s, t := bytes[n..n + 12], bytes[n..n + 12][j..j + 4], bytes[n + j..n + j + 4];
    forall k | 0 <= k < 4 ensures s[k] == t[k] {
      assert s[k] == l[j + k] && l[j + k] == bytes[n + j + k];
    }
  }

  lemma ThreeWords(s: seq<Byte>, a: seq<Byte>, b: seq<Byte>, c: seq<Byte>)
    requires s == a + b + c && |a| == |b| == |c| == 4
    ensures s[..4] == a && s[4..8] == b && s[8..] == c
  {}

  /** Once a program is loaded, fetching its k-th instruction returns exactly the opcode and operands of
      its k-th line, even across page edges, and the CPU knows the opcode and accepts the registers. */
  lemma FetchIsAssembled(vm: Vm, lines: seq<Line>, k: nat)
    requires Inv(vm) && Roomy(vm) && Shape(vm) && Assemble(lines).Some? && k < |lines|
    requires 12 * |lines| <= 0xE000 && Create(vm, Assemble(lines).value).1
    ensures var r, i, line := Create(vm, Assemble(lines).value).0, |vm.pids|, lines[k];
      && i < |r.pids| && Operands(line.op, line.args).Some?
      && var (a, b) := Operands(line.op, line.args).value;
      && var f := Fetch(SpaceOf(r, i), CODE_BASE + 12 * k);
      && f.Done? && f.val == (Code(line.op), a, b)
      && Decode(f.val.0) == Some(line.op) && RegsOk(line.op, a, b)
  {
    hide Inv, Create, Assemble, AssembleLine, Emit32, Fetch, WordAt, Code, Decode, RegsOk, Operands, Mapped;
    var code, line, n := Assemble(lines).value, lines[k], 12 * k;
    var r, i := Create(vm, code).0, |vm.pids|;
    AssembledLine(lines, k);
    AssembleLineForm(line);
    var (a, b) := Operands(line.op, line.args).value;
    LineWords(code, n, Code(line.op), a, b);
    LoadedWord(vm, code, n, Code(line.op));
    LoadedWord(vm, code, n + 4, a);
    LoadedWord(vm, code, n + 8, b);
    CreateInv(vm, code);
    CodeResident(vm, code);
    FetchReadable(r, i, CODE_BASE + n);
    FetchIsFlat(r, i, CODE_BASE + n);
    DecodeCode(line.op);
    OperandsPass(line.op, line.args);
  }

  lemma AssembleLineForm(line: Line)
    requires AssembleLine(line).Some?
    ensures Operands(line.op, line.args).Some?
    ensures var (a, b) := Operands(line.op, line.args).value;
            AssembleLine(line).value == Emit32(Code(line.op)) + Emit32(a) + Emit32(b)
  {}
}
