/** The NMOS opcode table, documented and undocumented slots alike. */
module Opcodes {
  import opened Basics

  /** Addressing modes the NMOS table uses. */
  datatype Mode = IMP | ACC | IMM | ZP | ZPX | ZPY | REL | ABS | ABX | ABY | IND | IZX | IZY | JSRABS

  /** Handlers grouped by the bus cycles they issue. */
  datatype Action = Read | Store | Modify | Register | ClearMask | SetMask | Push | Pull | PullStatus
                  | Jump | Call | Return | ReturnInterrupt | Branch | Break | Nop

  /** Mnemonics, and the placeholder `???`. */
  datatype Mnemonic = UNASSIGNED | ADC | ALR | ANC | AND | ARR | ASL | BCC | BCS | BEQ | BIT | BMI | BNE | BPL
                    | BRK | BVC | BVS | CLC | CLD | CLI | CLV | CMP | CPX | CPY | DCP | DEC | DEX | DEY | EOR
                    | INC | INX | INY | ISC | JMP | JSR | LAS | LAX | LDA | LDX | LDY | LSR | LXA | NOP | ORA
                    | PHA | PHP | PLA | PLP | RLA | ROL | ROR | RRA | RTI | RTS | SAX | SBC | SBX | SEC | SED
                    | SEI | SHA | SHX | SHY | SLO | SRE | STA | STX | STY | TAS | TAX | TAY | TSX | TXA | TXS
                    | TYA | XAA

  datatype Instr = Instr(name: Mnemonic, mode: Mode, bytes: nat, cycles: nat, pageAdd: bool, action: Action)

  const BRK_OPCODE: Byte := 0x00
  const CLI_OPCODE: Byte := 0x58
  const SEI_OPCODE: Byte := 0x78
  const RTI_OPCODE: Byte := 0x40

  /** The placeholder in the unassigned slots. */
  const ILLEGAL := Instr(UNASSIGNED, IMP, 1, 2, false, Nop)

  function Table(op: Byte): Instr {
    if op < 0x08 then From00(op)
    else if op < 0x10 then From08(op)
    else if op < 0x18 then From10(op)
    else if op < 0x20 then From18(op)
    else if op < 0x28 then From20(op)
    else if op < 0x30 then From28(op)
    else if op < 0x38 then From30(op)
    else if op < 0x40 then From38(op)
    else if op < 0x48 then From40(op)
    else if op < 0x50 then From48(op)
    else if op < 0x58 then From50(op)
    else if op < 0x60 then From58(op)
    else if op < 0x68 then From60(op)
    else if op < 0x70 then From68(op)
    else if op < 0x78 then From70(op)
    else if op < 0x80 then From78(op)
    else if op < 0x88 then From80(op)
    else if op < 0x90 then From88(op)
    else if op < 0x98 then From90(op)
    else if op < 0xA0 then From98(op)
    else if op < 0xA8 then FromA0(op)
    else if op < 0xB0 then FromA8(op)
    else if op < 0xB8 then FromB0(op)
    else if op < 0xC0 then FromB8(op)
    else if op < 0xC8 then FromC0(op)
    else if op < 0xD0 then FromC8(op)
    else if op < 0xD8 then FromD0(op)
    else if op < 0xE0 then FromD8(op)
    else if op < 0xE8 then FromE0(op)
    else if op < 0xF0 then FromE8(op)
    else if op < 0xF8 then FromF0(op)
    else FromF8(op)
  }

  function From00(op: Byte): (i: Instr)
    requires op < 0x08
    ensures Sound(op, i)
  {
    match op
    case 0x00 => Instr(BRK, IMP, 1, 7, false, Break)
    case 0x01 => Instr(ORA, IZX, 2, 6, false, Read)
    case 0x03 => Instr(SLO, IZX, 2, 8, false, Modify)
    case 0x04 => Instr(NOP, ZP, 2, 3, false, Read)
    case 0x05 => Instr(ORA, ZP, 2, 3, false, Read)
    case 0x06 => Instr(ASL, ZP, 2, 5, false, Modify)
    case 0x07 => Instr(SLO, ZP, 2, 5, false, Modify)
    case _ => ILLEGAL
  }

  function From08(op: Byte): (i: Instr)
    requires 0x08 <= op < 0x10
    ensures Sound(op, i)
  {
    match op
    case 0x08 => Instr(PHP, IMP, 1, 3, false, Push)
    case 0x09 => Instr(ORA, IMM, 2, 2, false, Read)
    case 0x0A => Instr(ASL, ACC, 1, 2, false, Modify)
    case 0x0B => Instr(ANC, IMM, 2, 2, false, Read)
    case 0x0C => Instr(NOP, ABS, 3, 4, false, Read)
    case 0x0D => Instr(ORA, ABS, 3, 4, false, Read)
    case 0x0E => Instr(ASL, ABS, 3, 6, false, Modify)
    case _ => Instr(SLO, ABS, 3, 6, false, Modify)
  }

  function From10(op: Byte): (i: Instr)
    requires 0x10 <= op < 0x18
    ensures Sound(op, i)
  {
    match op
    case 0x10 => Instr(BPL, REL, 2, 2, false, Branch)
    case 0x11 => Instr(ORA, IZY, 2, 5, true, Read)
    case 0x13 => Instr(SLO, IZY, 2, 8, false, Modify)
    case 0x14 => Instr(NOP, ZPX, 2, 4, false, Read)
    case 0x15 => Instr(ORA, ZPX, 2, 4, false, Read)
    case 0x16 => Instr(ASL, ZPX, 2, 6, false, Modify)
    case 0x17 => Instr(SLO, ZPX, 2, 6, false, Modify)
    case _ => ILLEGAL
  }

  function From18(op: Byte): (i: Instr)
    requires 0x18 <= op < 0x20
    ensures Sound(op, i)
  {
    match op
    case 0x18 => Instr(CLC, IMP, 1, 2, false, Register)
    case 0x19 => Instr(ORA, ABY, 3, 4, true, Read)
    case 0x1A => Instr(NOP, IMP, 1, 2, false, Nop)
    case 0x1B => Instr(SLO, ABY, 3, 7, false, Modify)
    case 0x1C => Instr(NOP, ABX, 3, 4, true, Read)
    case 0x1D => Instr(ORA, ABX, 3, 4, true, Read)
    case 0x1E => Instr(ASL, ABX, 3, 7, false, Modify)
    case _ => Instr(SLO, ABX, 3, 7, false, Modify)
  }

  function From20(op: Byte): (i: Instr)
    requires 0x20 <= op < 0x28
    ensures Sound(op, i)
  {
    match op
    case 0x20 => Instr(JSR, JSRABS, 3, 6, false, Call)
    case 0x21 => Instr(AND, IZX, 2, 6, false, Read)
    case 0x23 => Instr(RLA, IZX, 2, 8, false, Modify)
    case 0x24 => Instr(BIT, ZP, 2, 3, false, Read)
    case 0x25 => Instr(AND, ZP, 2, 3, false, Read)
    case 0x26 => Instr(ROL, ZP, 2, 5, false, Modify)
    case 0x27 => Instr(RLA, ZP, 2, 5, false, Modify)
    case _ => ILLEGAL
  }

  function From28(op: Byte): (i: Instr)
    requires 0x28 <= op < 0x30
    ensures Sound(op, i)
  {
    match op
    case 0x28 => Instr(PLP, IMP, 1, 4, false, PullStatus)
    case 0x29 => Instr(AND, IMM, 2, 2, false, Read)
    case 0x2A => Instr(ROL, ACC, 1, 2, false, Modify)
    case 0x2B => Instr(ANC, IMM, 2, 2, false, Read)
    case 0x2C => Instr(BIT, ABS, 3, 4, false, Read)
    case 0x2D => Instr(AND, ABS, 3, 4, false, Read)
    case 0x2E => Instr(ROL, ABS, 3, 6, false, Modify)
    case _ => Instr(RLA, ABS, 3, 6, false, Modify)
  }

  function From30(op: Byte): (i: Instr)
    requires 0x30 <= op < 0x38
    ensures Sound(op, i)
  {
    match op
    case 0x30 => Instr(BMI, REL, 2, 2, false, Branch)
    case 0x31 => Instr(AND, IZY, 2, 5, true, Read)
    case 0x33 => Instr(RLA, IZY, 2, 8, false, Modify)
    case 0x34 => Instr(NOP, ZPX, 2, 4, false, Read)
    case 0x35 => Instr(AND, ZPX, 2, 4, false, Read)
    case 0x36 => Instr(ROL, ZPX, 2, 6, false, Modify)
    case 0x37 => Instr(RLA, ZPX, 2, 6, false, Modify)
    case _ => ILLEGAL
  }

  function From38(op: Byte): (i: Instr)
    requires 0x38 <= op < 0x40
    ensures Sound(op, i)
  {
    match op
    case 0x38 => Instr(SEC, IMP, 1, 2, false, Register)
    case 0x39 => Instr(AND, ABY, 3, 4, true, Read)
    case 0x3A => Instr(NOP, IMP, 1, 2, false, Nop)
    case 0x3B => Instr(RLA, ABY, 3, 7, false, Modify)
    case 0x3C => Instr(NOP, ABX, 3, 4, true, Read)
    case 0x3D => Instr(AND, ABX, 3, 4, true, Read)
    case 0x3E => Instr(ROL, ABX, 3, 7, false, Modify)
    case _ => Instr(RLA, ABX, 3, 7, false, Modify)
  }

  function From40(op: Byte): (i: Instr)
    requires 0x40 <= op < 0x48
    ensures Sound(op, i)
  {
    match op
    case 0x40 => Instr(RTI, IMP, 1, 6, false, ReturnInterrupt)
    case 0x41 => Instr(EOR, IZX, 2, 6, false, Read)
    case 0x43 => Instr(SRE, IZX, 2, 8, false, Modify)
    case 0x44 => Instr(NOP, ZP, 2, 3, false, Read)
    case 0x45 => Instr(EOR, ZP, 2, 3, false, Read)
    case 0x46 => Instr(LSR, ZP, 2, 5, false, Modify)
    case 0x47 => Instr(SRE, ZP, 2, 5, false, Modify)
    case _ => ILLEGAL
  }

  function From48(op: Byte): (i: Instr)
    requires 0x48 <= op < 0x50
    ensures Sound(op, i)
  {
    match op
    case 0x48 => Instr(PHA, IMP, 1, 3, false, Push)
    case 0x49 => Instr(EOR, IMM, 2, 2, false, Read)
    case 0x4A => Instr(LSR, ACC, 1, 2, false, Modify)
    case 0x4B => Instr(ALR, IMM, 2, 2, false, Read)
    case 0x4C => Instr(JMP, ABS, 3, 3, false, Jump)
    case 0x4D => Instr(EOR, ABS, 3, 4, false, Read)
    case 0x4E => Instr(LSR, ABS, 3, 6, false, Modify)
    case _ => Instr(SRE, ABS, 3, 6, false, Modify)
  }

  function From50(op: Byte): (i: Instr)
    requires 0x50 <= op < 0x58
    ensures Sound(op, i)
  {
    match op
    case 0x50 => Instr(BVC, REL, 2, 2, false, Branch)
    case 0x51 => Instr(EOR, IZY, 2, 5, true, Read)
    case 0x53 => Instr(SRE, IZY, 2, 8, false, Modify)
    case 0x54 => Instr(NOP, ZPX, 2, 4, false, Read)
    case 0x55 => Instr(EOR, ZPX, 2, 4, false, Read)
    case 0x56 => Instr(LSR, ZPX, 2, 6, false, Modify)
    case 0x57 => Instr(SRE, ZPX, 2, 6, false, Modify)
    case _ => ILLEGAL
  }

  function From58(op: Byte): (i: Instr)
    requires 0x58 <= op < 0x60
    ensures Sound(op, i)
  {
    match op
    case 0x58 => Instr(CLI, IMP, 1, 2, false, ClearMask)
    case 0x59 => Instr(EOR, ABY, 3, 4, true, Read)
    case 0x5A => Instr(NOP, IMP, 1, 2, false, Nop)
    case 0x5B => Instr(SRE, ABY, 3, 7, false, Modify)
    case 0x5C => Instr(NOP, ABX, 3, 4, true, Read)
    case 0x5D => Instr(EOR, ABX, 3, 4, true, Read)
    case 0x5E => Instr(LSR, ABX, 3, 7, false, Modify)
    case _ => Instr(SRE, ABX, 3, 7, false, Modify)
  }

  function From60(op: Byte): (i: Instr)
    requires 0x60 <= op < 0x68
    ensures Sound(op, i)
  {
    match op
    case 0x60 => Instr(RTS, IMP, 1, 6, false, Return)
    case 0x61 => Instr(ADC, IZX, 2, 6, false, Read)
    case 0x63 => Instr(RRA, IZX, 2, 8, false, Modify)
    case 0x64 => Instr(NOP, ZP, 2, 3, false, Read)
    case 0x65 => Instr(ADC, ZP, 2, 3, false, Read)
    case 0x66 => Instr(ROR, ZP, 2, 5, false, Modify)
    case 0x67 => Instr(RRA, ZP, 2, 5, false, Modify)
    case _ => ILLEGAL
  }

  function From68(op: Byte): (i: Instr)
    requires 0x68 <= op < 0x70
    ensures Sound(op, i)
  {
    match op
    case 0x68 => Instr(PLA, IMP, 1, 4, false, Pull)
    case 0x69 => Instr(ADC, IMM, 2, 2, false, Read)
    case 0x6A => Instr(ROR, ACC, 1, 2, false, Modify)
    case 0x6B => Instr(ARR, IMM, 2, 2, false, Read)
    case 0x6C => Instr(JMP, IND, 3, 5, false, Jump)
    case 0x6D => Instr(ADC, ABS, 3, 4, false, Read)
    case 0x6E => Instr(ROR, ABS, 3, 6, false, Modify)
    case _ => Instr(RRA, ABS, 3, 6, false, Modify)
  }

  function From70(op: Byte): (i: Instr)
    requires 0x70 <= op < 0x78
    ensures Sound(op, i)
  {
    match op
    case 0x70 => Instr(BVS, REL, 2, 2, false, Branch)
    case 0x71 => Instr(ADC, IZY, 2, 5, true, Read)
    case 0x73 => Instr(RRA, IZY, 2, 8, false, Modify)
    case 0x74 => Instr(NOP, ZPX, 2, 4, false, Read)
    case 0x75 => Instr(ADC, ZPX, 2, 4, false, Read)
    case 0x76 => Instr(ROR, ZPX, 2, 6, false, Modify)
    case 0x77 => Instr(RRA, ZPX, 2, 6, false, Modify)
    case _ => ILLEGAL
  }

  function From78(op: Byte): (i: Instr)
    requires 0x78 <= op < 0x80
    ensures Sound(op, i)
  {
    match op
    case 0x78 => Instr(SEI, IMP, 1, 2, false, SetMask)
    case 0x79 => Instr(ADC, ABY, 3, 4, true, Read)
    case 0x7A => Instr(NOP, IMP, 1, 2, false, Nop)
    case 0x7B => Instr(RRA, ABY, 3, 7, false, Modify)
    case 0x7C => Instr(NOP, ABX, 3, 4, true, Read)
    case 0x7D => Instr(ADC, ABX, 3, 4, true, Read)
    case 0x7E => Instr(ROR, ABX, 3, 7, false, Modify)
    case _ => Instr(RRA, ABX, 3, 7, false, Modify)
  }

  function From80(op: Byte): (i: Instr)
    requires 0x80 <= op < 0x88
    ensures Sound(op, i)
  {
    match op
    case 0x80 => Instr(NOP, IMM, 2, 2, false, Read)
    case 0x81 => Instr(STA, IZX, 2, 6, false, Store)
    case 0x82 => Instr(NOP, IMM, 2, 2, false, Read)
    case 0x83 => Instr(SAX, IZX, 2, 6, false, Store)
    case 0x84 => Instr(STY, ZP, 2, 3, false, Store)
    case 0x85 => Instr(STA, ZP, 2, 3, false, Store)
    case 0x86 => Instr(STX, ZP, 2, 3, false, Store)
    case _ => Instr(SAX, ZP, 2, 3, false, Store)
  }

  function From88(op: Byte): (i: Instr)
    requires 0x88 <= op < 0x90
    ensures Sound(op, i)
  {
    match op
    case 0x88 => Instr(DEY, IMP, 1, 2, false, Register)
    case 0x89 => Instr(NOP, IMM, 2, 2, false, Read)
    case 0x8A => Instr(TXA, IMP, 1, 2, false, Register)
    case 0x8B => Instr(XAA, IMM, 2, 2, false, Read)
    case 0x8C => Instr(STY, ABS, 3, 4, false, Store)
    case 0x8D => Instr(STA, ABS, 3, 4, false, Store)
    case 0x8E => Instr(STX, ABS, 3, 4, false, Store)
    case _ => Instr(SAX, ABS, 3, 4, false, Store)
  }

  function From90(op: Byte): (i: Instr)
    requires 0x90 <= op < 0x98
    ensures Sound(op, i)
  {
    match op
    case 0x90 => Instr(BCC, REL, 2, 2, false, Branch)
    case 0x91 => Instr(STA, IZY, 2, 6, false, Store)
    case 0x93 => Instr(SHA, IZY, 2, 6, false, Store)
    case 0x94 => Instr(STY, ZPX, 2, 4, false, Store)
    case 0x95 => Instr(STA, ZPX, 2, 4, false, Store)
    case 0x96 => Instr(STX, ZPY, 2, 4, false, Store)
    case 0x97 => Instr(SAX, ZPY, 2, 4, false, Store)
    case _ => ILLEGAL
  }

  function From98(op: Byte): (i: Instr)
    requires 0x98 <= op < 0xA0
    ensures Sound(op, i)
  {
    match op
    case 0x98 => Instr(TYA, IMP, 1, 2, false, Register)
    case 0x99 => Instr(STA, ABY, 3, 5, false, Store)
    case 0x9A => Instr(TXS, IMP, 1, 2, false, Register)
    case 0x9B => Instr(TAS, ABY, 3, 5, false, Store)
    case 0x9C => Instr(SHY, ABX, 3, 5, false, Store)
    case 0x9D => Instr(STA, ABX, 3, 5, false, Store)
    case 0x9E => Instr(SHX, ABY, 3, 5, false, Store)
    case _ => Instr(SHA, ABY, 3, 5, false, Store)
  }

  function FromA0(op: Byte): (i: Instr)
    requires 0xA0 <= op < 0xA8
    ensures Sound(op, i)
  {
    match op
    case 0xA0 => Instr(LDY, IMM, 2, 2, false, Read)
    case 0xA1 => Instr(LDA, IZX, 2, 6, false, Read)
    case 0xA2 => Instr(LDX, IMM, 2, 2, false, Read)
    case 0xA3 => Instr(LAX, IZX, 2, 6, false, Read)
    case 0xA4 => Instr(LDY, ZP, 2, 3, false, Read)
    case 0xA5 => Instr(LDA, ZP, 2, 3, false, Read)
    case 0xA6 => Instr(LDX, ZP, 2, 3, false, Read)
    case _ => Instr(LAX, ZP, 2, 3, false, Read)
  }

  function FromA8(op: Byte): (i: Instr)
    requires 0xA8 <= op < 0xB0
    ensures Sound(op, i)
  {
    match op
    case 0xA8 => Instr(TAY, IMP, 1, 2, false, Register)
    case 0xA9 => Instr(LDA, IMM, 2, 2, false, Read)
    case 0xAA => Instr(TAX, IMP, 1, 2, false, Register)
    case 0xAB => Instr(LXA, IMM, 2, 2, false, Read)
    case 0xAC => Instr(LDY, ABS, 3, 4, false, Read)
    case 0xAD => Instr(LDA, ABS, 3, 4, false, Read)
    case 0xAE => Instr(LDX, ABS, 3, 4, false, Read)
    case _ => Instr(LAX, ABS, 3, 4, false, Read)
  }

  function FromB0(op: Byte): (i: Instr)
    requires 0xB0 <= op < 0xB8
    ensures Sound(op, i)
  {
    match op
    case 0xB0 => Instr(BCS, REL, 2, 2, false, Branch)
    case 0xB1 => Instr(LDA, IZY, 2, 5, true, Read)
    case 0xB3 => Instr(LAX, IZY, 2, 5, true, Read)
    case 0xB4 => Instr(LDY, ZPX, 2, 4, false, Read)
    case 0xB5 => Instr(LDA, ZPX, 2, 4, false, Read)
    case 0xB6 => Instr(LDX, ZPY, 2, 4, false, Read)
    case 0xB7 => Instr(LAX, ZPY, 2, 4, false, Read)
    case _ => ILLEGAL
  }

  function FromB8(op: Byte): (i: Instr)
    requires 0xB8 <= op < 0xC0
    ensures Sound(op, i)
  {
    match op
    case 0xB8 => Instr(CLV, IMP, 1, 2, false, Register)
    case 0xB9 => Instr(LDA, ABY, 3, 4, true, Read)
    case 0xBA => Instr(TSX, IMP, 1, 2, false, Register)
    case 0xBB => Instr(LAS, ABY, 3, 4, true, Read)
    case 0xBC => Instr(LDY, ABX, 3, 4, true, Read)
    case 0xBD => Instr(LDA, ABX, 3, 4, true, Read)
    case 0xBE => Instr(LDX, ABY, 3, 4, true, Read)
    case _ => Instr(LAX, ABY, 3, 4, true, Read)
  }

  function FromC0(op: Byte): (i: Instr)
    requires 0xC0 <= op < 0xC8
    ensures Sound(op, i)
  {
    match op
    case 0xC0 => Instr(CPY, IMM, 2, 2, false, Read)
    case 0xC1 => Instr(CMP, IZX, 2, 6, false, Read)
    case 0xC2 => Instr(NOP, IMM, 2, 2, false, Read)
    case 0xC3 => Instr(DCP, IZX, 2, 8, false, Modify)
    case 0xC4 => Instr(CPY, ZP, 2, 3, false, Read)
    case 0xC5 => Instr(CMP, ZP, 2, 3, false, Read)
    case 0xC6 => Instr(DEC, ZP, 2, 5, false, Modify)
    case _ => Instr(DCP, ZP, 2, 5, false, Modify)
  }

  function FromC8(op: Byte): (i: Instr)
    requires 0xC8 <= op < 0xD0
    ensures Sound(op, i)
  {
    match op
    case 0xC8 => Instr(INY, IMP, 1, 2, false, Register)
    case 0xC9 => Instr(CMP, IMM, 2, 2, false, Read)
    case 0xCA => Instr(DEX, IMP, 1, 2, false, Register)
    case 0xCB => Instr(SBX, IMM, 2, 2, false, Read)
    case 0xCC => Instr(CPY, ABS, 3, 4, false, Read)
    case 0xCD => Instr(CMP, ABS, 3, 4, false, Read)
    case 0xCE => Instr(DEC, ABS, 3, 6, false, Modify)
    case _ => Instr(DCP, ABS, 3, 6, false, Modify)
  }

  function FromD0(op: Byte): (i: Instr)
    requires 0xD0 <= op < 0xD8
    ensures Sound(op, i)
  {
    match op
    case 0xD0 => Instr(BNE, REL, 2, 2, false, Branch)
    case 0xD1 => Instr(CMP, IZY, 2, 5, true, Read)
    case 0xD3 => Instr(DCP, IZY, 2, 8, false, Modify)
    case 0xD4 => Instr(NOP, ZPX, 2, 4, false, Read)
    case 0xD5 => Instr(CMP, ZPX, 2, 4, false, Read)
    case 0xD6 => Instr(DEC, ZPX, 2, 6, false, Modify)
    case 0xD7 => Instr(DCP, ZPX, 2, 6, false, Modify)
    case _ => ILLEGAL
  }

  function FromD8(op: Byte): (i: Instr)
    requires 0xD8 <= op < 0xE0
    ensures Sound(op, i)
  {
    match op
    case 0xD8 => Instr(CLD, IMP, 1, 2, false, Register)
    case 0xD9 => Instr(CMP, ABY, 3, 4, true, Read)
    case 0xDA => Instr(NOP, IMP, 1, 2, false, Nop)
    case 0xDB => Instr(DCP, ABY, 3, 7, false, Modify)
    case 0xDC => Instr(NOP, ABX, 3, 4, true, Read)
    case 0xDD => Instr(CMP, ABX, 3, 4, true, Read)
    case 0xDE => Instr(DEC, ABX, 3, 7, false, Modify)
    case _ => Instr(DCP, ABX, 3, 7, false, Modify)
  }

  function FromE0(op: Byte): (i: Instr)
    requires 0xE0 <= op < 0xE8
    ensures Sound(op, i)
  {
    match op
    case 0xE0 => Instr(CPX, IMM, 2, 2, false, Read)
    case 0xE1 => Instr(SBC, IZX, 2, 6, false, Read)
    case 0xE2 => Instr(NOP, IMM, 2, 2, false, Read)
    case 0xE3 => Instr(ISC, IZX, 2, 8, false, Modify)
    case 0xE4 => Instr(CPX, ZP, 2, 3, false, Read)
    case 0xE5 => Instr(SBC, ZP, 2, 3, false, Read)
    case 0xE6 => Instr(INC, ZP, 2, 5, false, Modify)
    case _ => Instr(ISC, ZP, 2, 5, false, Modify)
  }

  function FromE8(op: Byte): (i: Instr)
    requires 0xE8 <= op < 0xF0
    ensures Sound(op, i)
  {
    match op
    case 0xE8 => Instr(INX, IMP, 1, 2, false, Register)
    case 0xE9 => Instr(SBC, IMM, 2, 2, false, Read)
    case 0xEA => Instr(NOP, IMP, 1, 2, false, Nop)
    case 0xEB => Instr(SBC, IMM, 2, 2, false, Read)
    case 0xEC => Instr(CPX, ABS, 3, 4, false, Read)
    case 0xED => Instr(SBC, ABS, 3, 4, false, Read)
    case 0xEE => Instr(INC, ABS, 3, 6, false, Modify)
    case _ => Instr(ISC, ABS, 3, 6, false, Modify)
  }

  function FromF0(op: Byte): (i: Instr)
    requires 0xF0 <= op < 0xF8
    ensures Sound(op, i)
  {
    match op
    case 0xF0 => Instr(BEQ, REL, 2, 2, false, Branch)
    case 0xF1 => Instr(SBC, IZY, 2, 5, true, Read)
    case 0xF3 => Instr(ISC, IZY, 2, 8, false, Modify)
    case 0xF4 => Instr(NOP, ZPX, 2, 4, false, Read)
    case 0xF5 => Instr(SBC, ZPX, 2, 4, false, Read)
    case 0xF6 => Instr(INC, ZPX, 2, 6, false, Modify)
    case 0xF7 => Instr(ISC, ZPX, 2, 6, false, Modify)
    case _ => ILLEGAL
  }

  function FromF8(op: Byte): (i: Instr)
    requires 0xF8 <= op
    ensures Sound(op, i)
  {
    match op
    case 0xF8 => Instr(SED, IMP, 1, 2, false, Register)
    case 0xF9 => Instr(SBC, ABY, 3, 4, true, Read)
    case 0xFA => Instr(NOP, IMP, 1, 2, false, Nop)
    case 0xFB => Instr(ISC, ABY, 3, 7, false, Modify)
    case 0xFC => Instr(NOP, ABX, 3, 4, true, Read)
    case 0xFD => Instr(SBC, ABX, 3, 4, true, Read)
    case 0xFE => Instr(INC, ABX, 3, 7, false, Modify)
    case _ => Instr(ISC, ABX, 3, 7, false, Modify)
  }

  // ---------- the shape of the opcode matrix ----------

  /** Bytes after the opcode. The table gives BRK none, although it skips one. */
  function OperandBytes(mode: Mode): nat {
    match mode
    case IMP => 0
    case ACC => 0
    case IMM => 1
    case ZP => 1
    case ZPX => 1
    case ZPY => 1
    case REL => 1
    case ABS => 2
    case ABX => 2
    case ABY => 2
    case IND => 2
    case IZX => 1
    case IZY => 1
    case JSRABS => 2
  }

  /** Operand bytes fetched to resolve the address; JSR fetches its second one later. */
  function FetchedBytes(mode: Mode): nat {
    if mode.JSRABS? then 1 else OperandBytes(mode)
  }

  /** The mode by column and row of the 16 by 16 matrix: odd rows index what even rows address
      directly, and in rows 9 and B the columns of X and of A with X index by Y. */
  function ModeAt(op: Byte): Mode {
    var row, column := op / 16, op % 16;
    var odd, byY := row % 2 == 1, row == 0x9 || row == 0xB;
    match column
    case 0x0 => if odd then REL else if row >= 8 then IMM else if row == 2 then JSRABS else IMP
    case 0x1 => if odd then IZY else IZX
    case 0x2 => if !odd && row >= 8 then IMM else IMP
    case 0x3 => if odd then IZY else IZX
    case 0x4 => if odd then ZPX else ZP
    case 0x5 => if odd then ZPX else ZP
    case 0x6 => if !odd then ZP else if byY then ZPY else ZPX
    case 0x7 => if !odd then ZP else if byY then ZPY else ZPX
    case 0x8 => IMP
    case 0x9 => if odd then ABY else IMM
    case 0xA => if !odd && row < 8 then ACC else IMP
    case 0xB => if odd then ABY else IMM
    case 0xC => if odd then ABX else if row == 6 then IND else ABS
    case 0xD => if odd then ABX else ABS
    case _ => if !odd then ABS else if byY then ABY else ABX
  }

  // ---------- bus cycles, counted from the code that issues them ----------

  function ResolveTicks(mode: Mode): nat {
    match mode
    case IMP => 0
    case ACC => 0
    case IMM => 0
    case ZP => 1
    case ZPX => 2
    case ZPY => 2
    case REL => 1
    case ABS => 2
    case ABX => 2
    case ABY => 2
    case IND => 4
    case IZX => 4
    case IZY => 3
    case JSRABS => 1
  }

  predicate Indexed(mode: Mode) {
    mode.ABX? || mode.ABY? || mode.IZY?
  }

  function DummyTicks(i: Instr, crossed: bool): nat {
    if i.mode.IMP? || i.mode.ACC? then (if i.cycles == 2 then 1 else 0)
    else if Indexed(i.mode) && (!i.pageAdd || crossed) then 1
    else 0
  }

  /** Handler cycles, leaving out what a taken branch adds. */
  function ActionTicks(i: Instr): nat {
    match i.action
    case Read => 1
    case Store => 1
    case Modify => if i.mode == ACC then 0 else 3
    case Register => 0
    case ClearMask => 0
    case SetMask => 0
    case Push => 2
    case Pull => 3
    case PullStatus => 3
    case Jump => 0
    case Call => 4
    case Return => 5
    case ReturnInterrupt => 5
    case Branch => 0
    case Break => 6
    case Nop => if i.mode.IMP? || i.mode.ACC? then 0 else 1
  }

  /** Bus cycles issued agree with the documented count, page penalty included. */
  predicate WellTimed(i: Instr, crossed: bool) {
    1 + ResolveTicks(i.mode) + DummyTicks(i, crossed) + ActionTicks(i)
    == i.cycles + if i.pageAdd && crossed then 1 else 0
  }

  predicate Sound(op: Byte, i: Instr) {
    && i.cycles >= 2 && i.bytes == 1 + OperandBytes(i.mode) && i.mode == ModeAt(op)
    && (i.action.Branch? <==> i.mode.REL?)
    && WellTimed(i, false)
    && (i.action.Break? <==> op == BRK_OPCODE) && (i.action.ClearMask? <==> op == CLI_OPCODE)
    && (i.action.ReturnInterrupt? <==> op == RTI_OPCODE) && (i.action.SetMask? <==> op == SEI_OPCODE)
  }

  /** A page crossed costs a dummy cycle exactly where it is charged. */
  lemma CrossingIsTimed(i: Instr, crossed: bool)
    requires WellTimed(i, false) && (crossed ==> Indexed(i.mode))
    ensures WellTimed(i, crossed)
  {
  }

  /** Every one of the 256 slots issues exactly the cycles the table charges for it. */
  lemma TableIsWellTimed(op: Byte, crossed: bool)
    requires crossed ==> Indexed(Table(op).mode)
    ensures WellTimed(Table(op), crossed)
  {
    TableIsSound(op);
    CrossingIsTimed(Table(op), crossed);
  }

  /** Every slot has the mode of its place in the matrix, and as many bytes as that mode takes. */
  lemma TableIsShaped(op: Byte)
    ensures Table(op).mode == ModeAt(op) && Table(op).bytes == 1 + OperandBytes(ModeAt(op))
    ensures Table(op).action.Branch? <==> Table(op).mode.REL?
  {
    TableIsSound(op);
  }

  lemma TableIsSound(op: Byte)
    ensures Sound(op, Table(op))
  {
  }

  ghost predicate IsTable(t: seq<Instr>) {
    |t| == 256 && forall op: Byte :: Sound(op, t[op])
  }

  function NmosTable(): (t: seq<Instr>)
    ensures IsTable(t) && forall op: Byte :: t[op] == Table(op)
  {
    var t := seq(256, op requires 0 <= op < 256 => Table(op));
    assert forall op: Byte :: Sound(op, t[op]) by {
      forall op: Byte ensures Sound(op, t[op]) {
        TableIsSound(op);
      }
    }
    t
  }
}
