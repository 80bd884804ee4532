/** The 6502's official instructions, as the disassembler's tables have them. */
module Isa {
  import opened Bytes

  datatype Option<T> = None | Some(value: T)

  datatype Mnemonic =
    | ADC | AND | ASL | BCC | BCS | BEQ | BIT | BMI | BNE | BPL | BRK | BVC | BVS | CLC | CLD | CLI
    | CLV | CMP | CPX | CPY | DEC | DEX | DEY | EOR | INC | INX | INY | JMP | JSR | LDA | LDX | LDY
    | LSR | NOP | ORA | PHA | PHP | PLA | PLP | ROL | ROR | RTI | RTS | SBC | SEC | SED | SEI | STA
    | STX | STY | TAX | TAY | TSX | TXA | TXS | TYA

  datatype Mode = Imp | Acc | Imm | Zp | Zpx | Zpy | Izx | Izy | Rel | Abs | Abx | Aby | Ind

  datatype Op = Op(mnemonic: Mnemonic, mode: Mode)

  /** How long an instruction of this mode is. */
  function Length(m: Mode): (n: nat)
    ensures 1 <= n <= 3
  {
    match m
    case Imp | Acc => 1
    case Abs | Abx | Aby | Ind => 3
    case _ => 2
  }

  /** The 151 official opcodes, thirty-two to a function; anything else is undefined. */
  function Decode(op: byte): Option<Op> {
    if op < 0x20 then Row0(op)
    else if op < 0x40 then Row2(op)
    else if op < 0x60 then Row4(op)
    else if op < 0x80 then Row6(op)
    else if op < 0xA0 then Row8(op)
    else if op < 0xC0 then RowA(op)
    else if op < 0xE0 then RowC(op)
    else RowE(op)
  }

  function Row0(op: byte): Option<Op> {
    match op
    case 0x00 => Some(Op(BRK, Imp))
    case 0x01 => Some(Op(ORA, Izx))
    case 0x05 => Some(Op(ORA, Zp))
    case 0x06 => Some(Op(ASL, Zp))
    case 0x08 => Some(Op(PHP, Imp))
    case 0x09 => Some(Op(ORA, Imm))
    case 0x0A => Some(Op(ASL, Acc))
    case 0x0D => Some(Op(ORA, Abs))
    case 0x0E => Some(Op(ASL, Abs))
    case 0x10 => Some(Op(BPL, Rel))
    case 0x11 => Some(Op(ORA, Izy))
    case 0x15 => Some(Op(ORA, Zpx))
    case 0x16 => Some(Op(ASL, Zpx))
    case 0x18 => Some(Op(CLC, Imp))
    case 0x19 => Some(Op(ORA, Aby))
    case 0x1D => Some(Op(ORA, Abx))
    case 0x1E => Some(Op(ASL, Abx))
    case _ => None
  }

  function Row2(op: byte): Option<Op> {
    match op
    case 0x20 => Some(Op(JSR, Abs))
    case 0x21 => Some(Op(AND, Izx))
    case 0x24 => Some(Op(BIT, Zp))
    case 0x25 => Some(Op(AND, Zp))
    case 0x26 => Some(Op(ROL, Zp))
    case 0x28 => Some(Op(PLP, Imp))
    case 0x29 => Some(Op(AND, Imm))
    case 0x2A => Some(Op(ROL, Acc))
    case 0x2C => Some(Op(BIT, Abs))
    case 0x2D => Some(Op(AND, Abs))
    case 0x2E => Some(Op(ROL, Abs))
    case 0x30 => Some(Op(BMI, Rel))
    case 0x31 => Some(Op(AND, Izy))
    case 0x35 => Some(Op(AND, Zpx))
    case 0x36 => Some(Op(ROL, Zpx))
    case 0x38 => Some(Op(SEC, Imp))
    case 0x39 => Some(Op(AND, Aby))
    case 0x3D => Some(Op(AND, Abx))
    case 0x3E => Some(Op(ROL, Abx))
    case _ => None
  }

  function Row4(op: byte): Option<Op> {
    match op
    case 0x40 => Some(Op(RTI, Imp))
    case 0x41 => Some(Op(EOR, Izx))
    case 0x45 => Some(Op(EOR, Zp))
    case 0x46 => Some(Op(LSR, Zp))
    case 0x48 => Some(Op(PHA, Imp))
    case 0x49 => Some(Op(EOR, Imm))
    case 0x4A => Some(Op(LSR, Acc))
    case 0x4C => Some(Op(JMP, Abs))
    case 0x4D => Some(Op(EOR, Abs))
    case 0x4E => Some(Op(LSR, Abs))
    case 0x50 => Some(Op(BVC, Rel))
    case 0x51 => Some(Op(EOR, Izy))
    case 0x55 => Some(Op(EOR, Zpx))
    case 0x56 => Some(Op(LSR, Zpx))
    case 0x58 => Some(Op(CLI, Imp))
    case 0x59 => Some(Op(EOR, Aby))
    case 0x5D => Some(Op(EOR, Abx))
    case 0x5E => Some(Op(LSR, Abx))
    case _ => None
  }

  function Row6(op: byte): Option<Op> {
    match op
    case 0x60 => Some(Op(RTS, Imp))
    case 0x61 => Some(Op(ADC, Izx))
    case 0x65 => Some(Op(ADC, Zp))
    case 0x66 => Some(Op(ROR, Zp))
    case 0x68 => Some(Op(PLA, Imp))
    case 0x69 => Some(Op(ADC, Imm))
    case 0x6A => Some(Op(ROR, Acc))
    case 0x6C => Some(Op(JMP, Ind))
    case 0x6D => Some(Op(ADC, Abs))
    case 0x6E => Some(Op(ROR, Abs))
    case 0x70 => Some(Op(BVS, Rel))
    case 0x71 => Some(Op(ADC, Izy))
    case 0x75 => Some(Op(ADC, Zpx))
    case 0x76 => Some(Op(ROR, Zpx))
    case 0x78 => Some(Op(SEI, Imp))
    case 0x79 => Some(Op(ADC, Aby))
    case 0x7D => Some(Op(ADC, Abx))
    case 0x7E => Some(Op(ROR, Abx))
    case _ => None
  }

  function Row8(op: byte): Option<Op> {
    match op
    case 0x81 => Some(Op(STA, Izx))
    case 0x84 => Some(Op(STY, Zp))
    case 0x85 => Some(Op(STA, Zp))
    case 0x86 => Some(Op(STX, Zp))
    case 0x88 => Some(Op(DEY, Imp))
    case 0x8A => Some(Op(TXA, Imp))
    case 0x8C => Some(Op(STY, Abs))
    case 0x8D => Some(Op(STA, Abs))
    case 0x8E => Some(Op(STX, Abs))
    case 0x90 => Some(Op(BCC, Rel))
    case 0x91 => Some(Op(STA, Izy))
    case 0x94 => Some(Op(STY, Zpx))
    case 0x95 => Some(Op(STA, Zpx))
    case 0x96 => Some(Op(STX, Zpy))
    case 0x98 => Some(Op(TYA, Imp))
    case 0x99 => Some(Op(STA, Aby))
    case 0x9A => Some(Op(TXS, Imp))
    case 0x9D => Some(Op(STA, Abx))
    case _ => None
  }

  function RowA(op: byte): Option<Op> {
    match op
    case 0xA0 => Some(Op(LDY, Imm))
    case 0xA1 => Some(Op(LDA, Izx))
    case 0xA2 => Some(Op(LDX, Imm))
    case 0xA4 => Some(Op(LDY, Zp))
    case 0xA5 => Some(Op(LDA, Zp))
    case 0xA6 => Some(Op(LDX, Zp))
    case 0xA8 => Some(Op(TAY, Imp))
    case 0xA9 => Some(Op(LDA, Imm))
    case 0xAA => Some(Op(TAX, Imp))
    case 0xAC => Some(Op(LDY, Abs))
    case 0xAD => Some(Op(LDA, Abs))
    case 0xAE => Some(Op(LDX, Abs))
    case 0xB0 => Some(Op(BCS, Rel))
    case 0xB1 => Some(Op(LDA, Izy))
    case 0xB4 => Some(Op(LDY, Zpx))
    case 0xB5 => Some(Op(LDA, Zpx))
    case 0xB6 => Some(Op(LDX, Zpy))
    case 0xB8 => Some(Op(CLV, Imp))
    case 0xB9 => Some(Op(LDA, Aby))
    case 0xBA => Some(Op(TSX, Imp))
    case 0xBC => Some(Op(LDY, Abx))
    case 0xBD => Some(Op(LDA, Abx))
    case 0xBE => Some(Op(LDX, Aby))
    case _ => None
  }

  function RowC(op: byte): Option<Op> {
    match op
    case 0xC0 => Some(Op(CPY, Imm))
    case 0xC1 => Some(Op(CMP, Izx))
    case 0xC4 => Some(Op(CPY, Zp))
    case 0xC5 => Some(Op(CMP, Zp))
    case 0xC6 => Some(Op(DEC, Zp))
    case 0xC8 => Some(Op(INY, Imp))
    case 0xC9 => Some(Op(CMP, Imm))
    case 0xCA => Some(Op(DEX, Imp))
    case 0xCC => Some(Op(CPY, Abs))
    case 0xCD => Some(Op(CMP, Abs))
    case 0xCE => Some(Op(DEC, Abs))
    case 0xD0 => Some(Op(BNE, Rel))
    case 0xD1 => Some(Op(CMP, Izy))
    case 0xD5 => Some(Op(CMP, Zpx))
    case 0xD6 => Some(Op(DEC, Zpx))
    case 0xD8 => Some(Op(CLD, Imp))
    case 0xD9 => Some(Op(CMP, Aby))
    case 0xDD => Some(Op(CMP, Abx))
    case 0xDE => Some(Op(DEC, Abx))
    case _ => None
  }

  function RowE(op: byte): Option<Op> {
    match op
    case 0xE0 => Some(Op(CPX, Imm))
    case 0xE1 => Some(Op(SBC, Izx))
    case 0xE4 => Some(Op(CPX, Zp))
    case 0xE5 => Some(Op(SBC, Zp))
    case 0xE6 => Some(Op(INC, Zp))
    case 0xE8 => Some(Op(INX, Imp))
    case 0xE9 => Some(Op(SBC, Imm))
    case 0xEA => Some(Op(NOP, Imp))
    case 0xEC => Some(Op(CPX, Abs))
    case 0xED => Some(Op(SBC, Abs))
    case 0xEE => Some(Op(INC, Abs))
    case 0xF0 => Some(Op(BEQ, Rel))
    case 0xF1 => Some(Op(SBC, Izy))
    case 0xF5 => Some(Op(SBC, Zpx))
    case 0xF6 => Some(Op(INC, Zpx))
    case 0xF8 => Some(Op(SED, Imp))
    case 0xF9 => Some(Op(SBC, Aby))
    case 0xFD => Some(Op(SBC, Abx))
    case 0xFE => Some(Op(INC, Abx))
    case _ => None
  }

  /** The opcode of a mnemonic in a mode, if it has that mode. */
  function Encode(m: Mnemonic, mode: Mode): Option<byte> {
    match m
    case ADC => (match mode
       case Izx => Some(0x61) case Zp => Some(0x65) case Imm => Some(0x69) case Abs => Some(0x6D)
       case Izy => Some(0x71) case Zpx => Some(0x75) case Aby => Some(0x79) case Abx => Some(0x7D) case _ => None)
    case AND => (match mode
       case Izx => Some(0x21) case Zp => Some(0x25) case Imm => Some(0x29) case Abs => Some(0x2D)
       case Izy => Some(0x31) case Zpx => Some(0x35) case Aby => Some(0x39) case Abx => Some(0x3D) case _ => None)
    case ASL => (match mode
       case Zp => Some(0x06) case Acc => Some(0x0A) case Abs => Some(0x0E) case Zpx => Some(0x16)
       case Abx => Some(0x1E) case _ => None)
    case BCC => (match mode
       case Rel => Some(0x90) case _ => None)
    case BCS => (match mode
       case Rel => Some(0xB0) case _ => None)
    case BEQ => (match mode
       case Rel => Some(0xF0) case _ => None)
    case BIT => (match mode
       case Zp => Some(0x24) case Abs => Some(0x2C) case _ => None)
    case BMI => (match mode
       case Rel => Some(0x30) case _ => None)
    case BNE => (match mode
       case Rel => Some(0xD0) case _ => None)
    case BPL => (match mode
       case Rel => Some(0x10) case _ => None)
    case BRK => (match mode
       case Imp => Some(0x00) case _ => None)
    case BVC => (match mode
       case Rel => Some(0x50) case _ => None)
    case BVS => (match mode
       case Rel => Some(0x70) case _ => None)
    case CLC => (match mode
       case Imp => Some(0x18) case _ => None)
    case CLD => (match mode
       case Imp => Some(0xD8) case _ => None)
    case CLI => (match mode
       case Imp => Some(0x58) case _ => None)
    case CLV => (match mode
       case Imp => Some(0xB8) case _ => None)
    case CMP => (match mode
       case Izx => Some(0xC1) case Zp => Some(0xC5) case Imm => Some(0xC9) case Abs => Some(0xCD)
       case Izy => Some(0xD1) case Zpx => Some(0xD5) case Aby => Some(0xD9) case Abx => Some(0xDD) case _ => None)
    case CPX => (match mode
       case Imm => Some(0xE0) case Zp => Some(0xE4) case Abs => Some(0xEC) case _ => None)
    case CPY => (match mode
       case Imm => Some(0xC0) case Zp => Some(0xC4) case Abs => Some(0xCC) case _ => None)
    case DEC => (match mode
       case Zp => Some(0xC6) case Abs => Some(0xCE) case Zpx => Some(0xD6) case Abx => Some(0xDE) case _ => None)
    case DEX => (match mode
       case Imp => Some(0xCA) case _ => None)
    case DEY => (match mode
       case Imp => Some(0x88) case _ => None)
    case EOR => (match mode
       case Izx => Some(0x41) case Zp => Some(0x45) case Imm => Some(0x49) case Abs => Some(0x4D)
       case Izy => Some(0x51) case Zpx => Some(0x55) case Aby => Some(0x59) case Abx => Some(0x5D) case _ => None)
    case INC => (match mode
       case Zp => Some(0xE6) case Abs => Some(0xEE) case Zpx => Some(0xF6) case Abx => Some(0xFE) case _ => None)
    case INX => (match mode
       case Imp => Some(0xE8) case _ => None)
    case INY => (match mode
       case Imp => Some(0xC8) case _ => None)
    case JMP => (match mode
       case Abs => Some(0x4C) case Ind => Some(0x6C) case _ => None)
    case JSR => (match mode
       case Abs => Some(0x20) case _ => None)
    case LDA => (match mode
       case Izx => Some(0xA1) case Zp => Some(0xA5) case Imm => Some(0xA9) case Abs => Some(0xAD)
       case Izy => Some(0xB1) case Zpx => Some(0xB5) case Aby => Some(0xB9) case Abx => Some(0xBD) case _ => None)
    case LDX => (match mode
       case Imm => Some(0xA2) case Zp => Some(0xA6) case Abs => Some(0xAE) case Zpy => Some(0xB6)
       case Aby => Some(0xBE) case _ => None)
    case LDY => (match mode
       case Imm => Some(0xA0) case Zp => Some(0xA4) case Abs => Some(0xAC) case Zpx => Some(0xB4)
       case Abx => Some(0xBC) case _ => None)
    case LSR => (match mode
       case Zp => Some(0x46) case Acc => Some(0x4A) case Abs => Some(0x4E) case Zpx => Some(0x56)
       case Abx => Some(0x5E) case _ => None)
    case NOP => (match mode
       case Imp => Some(0xEA) case _ => None)
    case ORA => (match mode
       case Izx => Some(0x01) case Zp => Some(0x05) case Imm => Some(0x09) case Abs => Some(0x0D)
       case Izy => Some(0x11) case Zpx => Some(0x15) case Aby => Some(0x19) case Abx => Some(0x1D) case _ => None)
    case PHA => (match mode
       case Imp => Some(0x48) case _ => None)
    case PHP => (match mode
       case Imp => Some(0x08) case _ => None)
    case PLA => (match mode
       case Imp => Some(0x68) case _ => None)
    case PLP => (match mode
       case Imp => Some(0x28) case _ => None)
    case ROL => (match mode
       case Zp => Some(0x26) case Acc => Some(0x2A) case Abs => Some(0x2E) case Zpx => Some(0x36)
       case Abx => Some(0x3E) case _ => None)
    case ROR => (match mode
       case Zp => Some(0x66) case Acc => Some(0x6A) case Abs => Some(0x6E) case Zpx => Some(0x76)
       case Abx => Some(0x7E) case _ => None)
    case RTI => (match mode
       case Imp => Some(0x40) case _ => None)
    case RTS => (match mode
       case Imp => Some(0x60) case _ => None)
    case SBC => (match mode
       case Izx => Some(0xE1) case Zp => Some(0xE5) case Imm => Some(0xE9) case Abs => Some(0xED)
       case Izy => Some(0xF1) case Zpx => Some(0xF5) case Aby => Some(0xF9) case Abx => Some(0xFD) case _ => None)
    case SEC => (match mode
       case Imp => Some(0x38) case _ => None)
    case SED => (match mode
       case Imp => Some(0xF8) case _ => None)
    case SEI => (match mode
       case Imp => Some(0x78) case _ => None)
    case STA => (match mode
       case Izx => Some(0x81) case Zp => Some(0x85) case Abs => Some(0x8D) case Izy => Some(0x91)
       case Zpx => Some(0x95) case Aby => Some(0x99) case Abx => Some(0x9D) case _ => None)
    case STX => (match mode
       case Zp => Some(0x86) case Abs => Some(0x8E) case Zpy => Some(0x96) case _ => None)
    case STY => (match mode
       case Zp => Some(0x84) case Abs => Some(0x8C) case Zpx => Some(0x94) case _ => None)
    case TAX => (match mode
       case Imp => Some(0xAA) case _ => None)
    case TAY => (match mode
       case Imp => Some(0xA8) case _ => None)
    case TSX => (match mode
       case Imp => Some(0xBA) case _ => None)
    case TXA => (match mode
       case Imp => Some(0x8A) case _ => None)
    case TXS => (match mode
       case Imp => Some(0x9A) case _ => None)
    case TYA => (match mode
       case Imp => Some(0x98) case _ => None)
  }

  predicate IsBranch(m: Mnemonic) {
    m in {BPL, BMI, BVC, BVS, BCC, BCS, BNE, BEQ}
  }

  predicate IsStore(m: Mnemonic) {
    m in {STA, STX, STY}
  }

  /** What the table must satisfy for one opcode: it re-encodes to itself, and it is relative exactly
      when its mnemonic is a branch's. */
  predicate Faithful(op: byte, o: Option<Op>) {
    o.Some? ==>
      && Encode(o.value.mnemonic, o.value.mode) == Some(op)
      && (o.value.mode == Rel <==> IsBranch(o.value.mnemonic))
  }

  lemma Faithful0(op: byte)
    ensures Faithful(op, Row0(op))
  {
  }

  lemma Faithful2(op: byte)
    ensures Faithful(op, Row2(op))
  {
  }

  lemma Faithful4(op: byte)
    ensures Faithful(op, Row4(op))
  {
  }

  lemma Faithful6(op: byte)
    ensures Faithful(op, Row6(op))
  {
  }

  lemma Faithful8(op: byte)
    ensures Faithful(op, Row8(op))
  {
    hide Faithful, Row8;
    if op < 0x90 {
      Faithful8Low(op);
    } else {
      Faithful8High(op);
    }
  }

  lemma Faithful8Low(op: byte)
    requires op < 0x90
    ensures Faithful(op, Row8(op))
  {
  }

  lemma Faithful8High(op: byte)
    requires op >= 0x90
    ensures Faithful(op, Row8(op))
  {
  }

  lemma FaithfulA(op: byte)
    ensures Faithful(op, RowA(op))
  {
    hide Faithful, RowA;
    if op < 0xB0 {
      FaithfulALow(op);
    } else {
      FaithfulAHigh(op);
    }
  }

  lemma FaithfulALow(op: byte)
    requires op < 0xB0
    ensures Faithful(op, RowA(op))
  {
  }

  lemma FaithfulAHigh(op: byte)
    requires op >= 0xB0
    ensures Faithful(op, RowA(op))
  {
  }

  lemma FaithfulC(op: byte)
    ensures Faithful(op, RowC(op))
  {
  }

  lemma FaithfulE(op: byte)
    ensures Faithful(op, RowE(op))
  {
    hide Faithful, RowE;
    if op < 0xF0 {
      FaithfulELow(op);
    } else {
      FaithfulEHigh(op);
    }
  }

  lemma FaithfulELow(op: byte)
    requires op < 0xF0
    ensures Faithful(op, RowE(op))
  {
  }

  lemma FaithfulEHigh(op: byte)
    requires op >= 0xF0
    ensures Faithful(op, RowE(op))
  {
  }

  /** Every decoded instruction re-encodes to the opcode it came from, so no two opcodes stand for the
      same mnemonic and mode; branches, and only they, are relative. */
  lemma DecodeEncode(op: byte)
    ensures Faithful(op, Decode(op))
  {
    hide Faithful;
    Faithful0(op);
    Faithful2(op);
    Faithful4(op);
    Faithful6(op);
    Faithful8(op);
    FaithfulA(op);
    FaithfulC(op);
    FaithfulE(op);
  }
}
