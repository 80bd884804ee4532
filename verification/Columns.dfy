/** The opcode table seen from the other side: an opcode's bits are a row, a column and a group, and they
    say what it does. */
module Columns {
  import opened Bytes
  import opened Isa

  /** Bits 7-5, 4-2 and 1-0. */
  function Row(op: byte): (r: nat)
    ensures r < 8
  {
    op / 32
  }

  function Column(op: byte): (c: nat)
    ensures c < 8
  {
    op / 4 % 8
  }

  const ARITHMETIC := [ORA, AND, EOR, ADC, STA, LDA, CMP, SBC]
  const ARITHMETIC_MODES := [Izx, Zp, Imm, Abs, Izy, Zpx, Aby, Abx]
  const SHIFTS := [ASL, ROL, LSR, ROR, STX, LDX, DEC, INC]
  const TRANSFERS := [TXA, TAX, DEX, NOP]
  const CONTROL := [BRK, JSR, RTI, RTS]
  const STACK := [PHP, PLP, PHA, PLA, DEY, TAY, INY, INX]
  const BRANCHES := [BPL, BMI, BVC, BVS, BCC, BCS, BNE, BEQ]
  const FLAGS := [CLC, SEC, CLI, SEI, TYA, CLV, CLD, SED]
  const INDEX := [STY, LDY, CPY, CPX]

  function Made(m: Mnemonic, mode: Mode): Option<Op> {
    Some(Op(m, mode))
  }

  /** The accumulator's eight operations in eight modes; only storing to a constant is missing. */
  function Group1(r: nat, c: nat): Option<Op>
    requires r < 8 && c < 8
  {
    if ARITHMETIC[r] == STA && ARITHMETIC_MODES[c] == Imm then None else Made(ARITHMETIC[r], ARITHMETIC_MODES[c])
  }

  /** Shifts and counts on memory; X's own index is Y. */
  function Group2(r: nat, c: nat): Option<Op>
    requires r < 8 && c < 8
  {
    var m := SHIFTS[r];
    var byY := m == STX || m == LDX;
    if c == 0 then if m == LDX then Made(m, Imm) else None
    else if c == 1 then Made(m, Zp)
    else if c == 2 then if r < 4 then Made(m, Acc) else Made(TRANSFERS[r - 4], Imp)
    else if c == 3 then Made(m, Abs)
    else if c == 5 then Made(m, if byY then Zpy else Zpx)
    else if c == 6 then if m == STX then Made(TXS, Imp) else if m == LDX then Made(TSX, Imp) else None
    else if c == 7 && m != STX then Made(m, if byY then Aby else Abx)
    else None
  }

  /** Control, the stack, the branches, the flags, and Y's loads, stores and compares. */
  function Group0(r: nat, c: nat): Option<Op>
    requires r < 8 && c < 8
  {
    if c == 2 then Made(STACK[r], Imp)
    else if c == 4 then Made(BRANCHES[r], Rel)
    else if c == 6 then Made(FLAGS[r], Imp)
    else if c == 0 then
      if r < 4 then Made(CONTROL[r], if r == 1 then Abs else Imp) else if r == 4 then None else Made(INDEX[r - 4], Imm)
    else if r >= 4 then
      if c == 1 then Made(INDEX[r - 4], Zp)
      else if c == 3 then Made(INDEX[r - 4], Abs)
      else if c == 5 && r <= 5 then Made(INDEX[r - 4], Zpx)
      else if c == 7 && r == 5 then Made(LDY, Abx)
      else None
    else if r == 1 && (c == 1 || c == 3) then Made(BIT, if c == 1 then Zp else Abs)
    else if c == 3 && r >= 2 then Made(JMP, if r == 2 then Abs else Ind)
    else None
  }

  function ByColumns(op: byte): Option<Op> {
    match op % 4
    case 0 => Group0(Row(op), Column(op))
    case 1 => Group1(Row(op), Column(op))
    case 2 => Group2(Row(op), Column(op))
    case _ => None
  }

  lemma Columns0(op: byte)
    requires 0x00 <= op < 0x20
    ensures Row0(op) == ByColumns(op)
  {
  }

  lemma Columns2(op: byte)
    requires 0x20 <= op < 0x40
    ensures Row2(op) == ByColumns(op)
  {
  }

  lemma Columns4(op: byte)
    requires 0x40 <= op < 0x60
    ensures Row4(op) == ByColumns(op)
  {
  }

  lemma Columns6(op: byte)
    requires 0x60 <= op < 0x80
    ensures Row6(op) == ByColumns(op)
  {
  }

  lemma Columns8(op: byte)
    requires 0x80 <= op < 0xA0
    ensures Row8(op) == ByColumns(op)
  {
  }

  lemma ColumnsA(op: byte)
    requires 0xA0 <= op < 0xC0
    ensures RowA(op) == ByColumns(op)
  {
  }

  lemma ColumnsC(op: byte)
    requires 0xC0 <= op < 0xE0
    ensures RowC(op) == ByColumns(op)
  {
  }

  lemma ColumnsE(op: byte)
    requires 0xE0 <= op
    ensures RowE(op) == ByColumns(op)
  {
  }

  /** The table's 151 entries are the processor's own layout: every opcode stands for what its row, column
      and group make it, and the 105 left out for nothing. */
  lemma TableIsColumns(op: byte)
    ensures Decode(op) == ByColumns(op)
  {
    hide ByColumns;
    if op < 0x20 {
      Columns0(op);
    } else if op < 0x40 {
      Columns2(op);
    } else if op < 0x60 {
      Columns4(op);
    } else if op < 0x80 {
      Columns6(op);
    } else if op < 0xA0 {
      Columns8(op);
    } else if op < 0xC0 {
      ColumnsA(op);
    } else if op < 0xE0 {
      ColumnsC(op);
    } else {
      ColumnsE(op);
    }
  }
}
