/** Opcodes, little-endian words and the assembler's encoding. */
module Instructions {
  import opened Basics

  datatype Opcode =
    | Incr | Addi | Addr
    | Movi | Movr | Movmr | Movrm | Movmm
    | Printr | Printm | Printcr | Printcm
    | Jmp | Jmpi | Jmpa
    | Cmpi | Cmpr
    | Jlt | Jlti | Jlta
    | Jgt | Jgti | Jgta
    | Je | Jei | Jea
    | Call | Callm | Ret
    | Exit | Sleep
    | Pushr | Pushi | Popr | Popm
    | Input | Inputc | Setpriority | Setpriorityi
    | MapSharedMem
    | AcquireLock | AcquireLockI
    | ReleaseLock | ReleaseLockI
    | SignalEvent | SignalEventI
    | WaitEvent | WaitEventI
    | Alloc | FreeMemory

  /** The numbering of ENUMOPCODE.H. */
  function Code(op: Opcode): (n: Word)
    ensures 1 <= n <= 50
  {
    match op
    case Incr => 1 case Addi => 2 case Addr => 3
    case Movi => 4 case Movr => 5 case Movmr => 6 case Movrm => 7 case Movmm => 8
    case Printr => 9 case Printm => 10 case Printcr => 11 case Printcm => 12
    case Jmp => 13 case Jmpi => 14 case Jmpa => 15
    case Cmpi => 16 case Cmpr => 17
    case Jlt => 18 case Jlti => 19 case Jlta => 20
    case Jgt => 21 case Jgti => 22 case Jgta => 23
    case Je => 24 case Jei => 25 case Jea => 26
    case Call => 27 case Callm => 28 case Ret => 29
    case Exit => 30 case Sleep => 31
    case Pushr => 32 case Pushi => 33 case Popr => 34 case Popm => 35
    case Input => 36 case Inputc => 37 case Setpriority => 38 case Setpriorityi => 39
    case MapSharedMem => 40
    case AcquireLock => 41 case AcquireLockI => 42
    case ReleaseLock => 43 case ReleaseLockI => 44
    case SignalEvent => 45 case SignalEventI => 46
    case WaitEvent => 47 case WaitEventI => 48
    case Alloc => 49 case FreeMemory => 50
  }

  /** The switch of execute: which case a raw word selects, if any. */
  function Decode(raw: Word): Option<Opcode> {
    match raw
    case 1 => Some(Incr) case 2 => Some(Addi) case 3 => Some(Addr) case 4 => Some(Movi) case 5 => Some(Movr)
    case 6 => Some(Movmr) case 7 => Some(Movrm) case 8 => Some(Movmm) case 9 => Some(Printr)
    case 10 => Some(Printm) case 11 => Some(Printcr) case 12 => Some(Printcm) case 13 => Some(Jmp)
    case 14 => Some(Jmpi) case 15 => Some(Jmpa) case 16 => Some(Cmpi) case 17 => Some(Cmpr)
    case 18 => Some(Jlt) case 19 => Some(Jlti) case 20 => Some(Jlta) case 21 => Some(Jgt)
    case 22 => Some(Jgti) case 23 => Some(Jgta) case 24 => Some(Je) case 25 => Some(Jei) case 26 => Some(Jea)
    case 27 => Some(Call) case 28 => Some(Callm) case 29 => Some(Ret) case 30 => Some(Exit)
    case 31 => Some(Sleep) case 32 => Some(Pushr) case 33 => Some(Pushi) case 34 => Some(Popr)
    case 35 => Some(Popm) case 36 => Some(Input) case 37 => Some(Inputc) case 38 => Some(Setpriority)
    case 39 => Some(Setpriorityi) case 40 => Some(MapSharedMem) case 41 => Some(AcquireLock)
    case 42 => Some(AcquireLockI) case 43 => Some(ReleaseLock) case 44 => Some(ReleaseLockI)
    case 45 => Some(SignalEvent) case 46 => Some(SignalEventI) case 47 => Some(WaitEvent)
    case 48 => Some(WaitEventI) case 49 => Some(Alloc) case 50 => Some(FreeMemory)
    case _ => None
  }

  /** Every opcode has a case of its own, so no assembled opcode is "Unknown opcode". */
  lemma DecodeCode(op: Opcode)
    ensures Decode(Code(op)) == Some(op)
  {
    match op
    case _ =>
  }

  // ---- Little-endian words ----------------------------------------------------------------------------

  function WordByte(w: Word, k: nat): (b: Byte)
    requires k < 4
  {
    match k
    case 0 => w % 0x100
    case 1 => w / 0x100 % 0x100
    case 2 => w / 0x1_0000 % 0x100
    case _ => w / 0x100_0000 % 0x100
  }

  function FromBytes(b0: Byte, b1: Byte, b2: Byte, b3: Byte): Word {
    b0 + 0x100 * b1 + 0x1_0000 * b2 + 0x100_0000 * b3
  }

  lemma WordRoundTrip(w: Word)
    ensures FromBytes(WordByte(w, 0), WordByte(w, 1), WordByte(w, 2), WordByte(w, 3)) == w
  {
    var x := w / 0x100;
    var y := x / 0x100;
    assert w == 0x100 * x + w % 0x100 && x == 0x100 * y + x % 0x100 && y == 0x100 * (y / 0x100) + y % 0x100;
    Quotients(w);
  }

  lemma Quotients(w: Word)
    ensures w / 0x1_0000 == w / 0x100 / 0x100 && w / 0x100_0000 == w / 0x100 / 0x100 / 0x100 < 0x100
  {}

  // ---- Assembling -----------------------------------------------------------------------------------------

  /** An operand as parseRegister or parseImmediate delivers it. */
  datatype Operand = Reg(n: int) | Imm(w: Word)

  datatype Format = NoOperand | OneReg | OneImm | RegImm | RegReg

  function FormatOf(op: Opcode): Format {
    match op
    case Exit | Ret => NoOperand
    case Incr | Printr | Printm | Printcr | Printcm | Pushr | Popr | Popm | Jmp | Jlt | Jgt | Je | Call | Callm
       | Sleep | Input | FreeMemory | Inputc | AcquireLock | ReleaseLock | SignalEvent | WaitEvent => OneReg
    case Jmpi | Jmpa | Jlti | Jlta | Jgti | Jgta | Jei | Jea | Pushi | Setpriorityi
       | AcquireLockI | ReleaseLockI | SignalEventI | WaitEventI => OneImm
    case Movi | Addi | Cmpi | Setpriority => RegImm
    case Movr | Movmr | Movrm | Movmm | Addr | Cmpr | Alloc | MapSharedMem => RegReg
  }

  /** The operand words of a line, or nothing where the assembler throws: a missing operand, or a
      register outside r1..r10. Surplus operands are ignored, as the assembler ignores surplus tokens. */
  function Operands(op: Opcode, args: seq<Operand>): Option<(Word, Word)> {
    match FormatOf(op)
    case NoOperand => Some((0, 0))
    case OneReg =>
      if |args| >= 1 && args[0].Reg? && 1 <= args[0].n <= 10 then Some((args[0].n, 0)) else None
    case OneImm =>
      if |args| >= 1 && args[0].Imm? then Some((args[0].w, 0)) else None
    case RegImm =>
      if |args| >= 2 && args[0].Reg? && 1 <= args[0].n <= 10 && args[1].Imm? then Some((args[0].n, args[1].w)) else None
    case RegReg =>
      if |args| >= 2 && args[0].Reg? && 1 <= args[0].n <= 10 && args[1].Reg? && 1 <= args[1].n <= 10
      then Some((args[0].n, args[1].n)) else None
  }

  function Emit32(w: Word): (bytes: seq<Byte>)
    ensures |bytes| == 4
  {
    [WordByte(w, 0), WordByte(w, 1), WordByte(w, 2), WordByte(w, 3)]
  }

  datatype Line = Line(op: Opcode, args: seq<Operand>)

  /** assembleLine on tokenised operands. */
  function AssembleLine(line: Line): (r: Option<seq<Byte>>)
    ensures r.Some? ==> |r.value| == 12
  {
    match Operands(line.op, line.args)
    case None => None
    case Some((a, b)) => Some(Emit32(Code(line.op)) + Emit32(a) + Emit32(b))
  }

  /** The bytes of a program, or nothing if some line does not assemble. */
  function Assemble(lines: seq<Line>): (r: Option<seq<Byte>>)
    ensures r.Some? ==> |r.value| == 12 * |lines|
  {
    if lines == [] then Some([])
    else
      var before := Assemble(lines[..|lines| - 1]);
      var last := AssembleLine(lines[|lines| - 1]);
      if before.None? || last.None? then None else Some(before.value + last.value)
  }

  /** Line k of an assembled program occupies bytes 12 k to 12 k + 11. */
  lemma {:induction false} AssembledLine(lines: seq<Line>, k: nat)
    requires Assemble(lines).Some? && k < |lines|
    ensures AssembleLine(lines[k]).Some?
    ensures Assemble(lines).value[12 * k..12 * k + 12] == AssembleLine(lines[k]).value
  {
    var n := |lines| - 1;
    var before, last := Assemble(lines[..n]).value, AssembleLine(lines[n]).value;
    if k < n {
      AssembledLine(lines[..n], k);
      assert (before + last)[12 * k..12 * k + 12] == before[12 * k..12 * k + 12];
    } else {
      assert (before + last)[12 * k..12 * k + 12] == last;
    }
  }
}
