/** The assembler's output buffer as the source has it, filled line by line and written into memory. */
module ProgramImage {
  import opened Basics
  import opened Memory
  import opened Instructions
  import opened MmuDevice
  import Paging
  import Lru

  class Program {
    var bytes: seq<Byte>

    constructor ()
      ensures bytes == []
    {
      bytes := [];
    }

    function SizeBytes(): nat
      reads this
    {
      |bytes|
    }

    method Emit32(w: Word)
      modifies this
      ensures bytes == old(bytes) + Instructions.Emit32(w)
    {
      bytes := bytes + [w % 0x100];
      bytes := bytes + [w / 0x100 % 0x100];
      bytes := bytes + [w / 0x1_0000 % 0x100];
      bytes := bytes + [w / 0x100_0000 % 0x100];
    }

    /** One line, its operands already parsed; false when it throws, and then nothing is emitted. */
    method AssembleLine(line: Line) returns (ok: bool)
      modifies this
      ensures ok == Instructions.AssembleLine(line).Some?
      ensures bytes == old(bytes) + if ok then Instructions.AssembleLine(line).value else []
    {
      hide Instructions.Emit32, Code;
      var opA: Word, opB: Word := 0, 0;
      match FormatOf(line.op) {
        case NoOperand =>
        case OneReg =>
          if |line.args| < 1 || !IsRegister(line.args[0]) { return false; }
          opA := line.args[0].n;
        case OneImm =>
          if |line.args| < 1 || !line.args[0].Imm? { return false; }
          opA := line.args[0].w;
        case RegImm =>
          if |line.args| < 2 || !IsRegister(line.args[0]) || !line.args[1].Imm? { return false; }
          opA, opB := line.args[0].n, line.args[1].w;
        case RegReg =>
          if |line.args| < 2 || !IsRegister(line.args[0]) || !IsRegister(line.args[1]) { return false; }
          opA, opB := line.args[0].n, line.args[1].n;
      }
      Emit32(Code(line.op));
      Emit32(opA);
      Emit32(opB);
      ok := true;
    }

    /** The lines of a file; false when a line throws or nothing was assembled. */
    method LoadLines(lines: seq<Line>) returns (ok: bool)
      modifies this
      ensures ok == (Assemble(lines).Some? && lines != [])
      ensures ok ==> bytes == Assemble(lines).value
    {
      hide Instructions.AssembleLine;
      bytes := [];
      var k := 0;
      while k < |lines|
        invariant 0 <= k <= |lines|
        invariant Assemble(lines[..k]) == Some(bytes)
      {
        assert lines[..k + 1][..k] == lines[..k];
        var done := AssembleLine(lines[k]);
        if !done {
          AssembleStops(lines, k + 1);
          return false;
        }
        k := k + 1;
      }
      assert lines[..k] == lines;
      ok := bytes != [];
    }

    /** write8 of every byte from baseAddr on, stopping at the first that throws. */
    method LoadIntoMemory(mmu: Mmu) returns (r: Res<()>)
      requires mmu.Valid() && mmu.active < |mmu.tables| && |bytes| <= 0xE000
      modifies mmu`tables, mmu`mem, mmu`lruList, mmu`lruPos, mmu`history, mmu.physMem
      ensures mmu.Valid() && Agrees(r, mmu.mem, Paging.WriteCode(old(mmu.mem), mmu.active, mmu.codeSize, bytes, |bytes|))
    {
      hide Linked, Lru.Replay, WriteByte;
      var k := 0;
      r := Ok(());
      while k < |bytes|
        invariant 0 <= k <= |bytes| && mmu.Valid() && mmu.active < |mmu.tables| && r.Ok?
        invariant Agrees(r, mmu.mem, Paging.WriteCode(old(mmu.mem), mmu.active, mmu.codeSize, bytes, k))
      {
        r := mmu.Write8(CODE_BASE + k, bytes[k]);
        k := k + 1;
        if !r.Ok? {
          WriteCodeStops(old(mmu.mem), mmu.active, mmu.codeSize, bytes, k, |bytes|);
          return;
        }
      }
    }
  }

  predicate IsRegister(o: Operand) {
    o.Reg? && 1 <= o.n <= 10
  }

  /** A line that does not assemble spoils the program. */
  lemma {:induction false} AssembleStops(lines: seq<Line>, k: nat)
    requires k <= |lines| && Assemble(lines[..k]).None?
    ensures Assemble(lines).None?
    decreases |lines| - k
  {
    if k == |lines| {
      assert lines[..k] == lines;
    } else {
      assert lines[..k + 1][..k] == lines[..k];
      AssembleStops(lines, k + 1);
    }
  }

  /** After a write that throws nothing more is written. */
  lemma {:induction false} WriteCodeStops(m: Mem, i: nat, codeSize: nat, code: seq<Byte>, k: nat, n: nat)
    requires i < |m.tables| && k <= n <= |code| <= 0xE000 && !Paging.WriteCode(m, i, codeSize, code, k).Done?
    ensures Paging.WriteCode(m, i, codeSize, code, n) == Paging.WriteCode(m, i, codeSize, code, k)
  {
    if k < n { WriteCodeStops(m, i, codeSize, code, k, n - 1); }
  }
}
