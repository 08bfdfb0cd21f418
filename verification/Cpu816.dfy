/** The 65816 core as an object: register halves, width-dependent helpers and one instruction step. */
module Cpu816 {
  import opened Basics
  import opened Core816
  import opened Flags816
  import BlockMove

  datatype Source = FromA | FromX | FromY | FromSp

  /** What an opcode may do to the widths, the stack or the frames. */
  datatype Kind =
    | Accumulator | Store | Status | Branch
    | IndexLoad(y: bool) | IndexFrom(y: bool, source: Source) | IndexStep(y: bool, up: bool)
    | PointerFromA | PointerFromX | DirectFromA
    | ExchangeCarry | SetBits | ClearBits
    | Pha | Pla | PushIndex(y: bool) | PullIndex(y: bool) | Php | Plp | Phb | Plb | Phk | Phd | Pld | PushOperand
    | JumpLong | Jsr | Jsl | Rts | Rtl | Rti | Software(isBreak: bool) | BlockMove(up: bool) | Unimplemented

  function KindOf(op: Byte): Kind {
    if op in {0x01, 0x03, 0x05, 0x07, 0x09, 0x0A, 0x0D, 0x0F, 0x11, 0x12, 0x13, 0x15, 0x17, 0x19,
             0x1A, 0x1D, 0x1F, 0x21, 0x23, 0x25, 0x27, 0x29, 0x2A, 0x2D, 0x2F, 0x31, 0x32, 0x33,
             0x35, 0x37, 0x39, 0x3A, 0x3B, 0x3D, 0x3F, 0x41, 0x43, 0x45, 0x47, 0x49, 0x4A, 0x4D,
             0x4F, 0x51, 0x52, 0x53, 0x55, 0x57, 0x59, 0x5D, 0x5F, 0x61, 0x63, 0x65, 0x67, 0x69,
             0x6A, 0x6D, 0x6F, 0x71, 0x72, 0x73, 0x75, 0x77, 0x79, 0x7B, 0x7D, 0x7F, 0x8A, 0x98,
             0xA1, 0xA3, 0xA5, 0xA7, 0xA9, 0xAD, 0xAF, 0xB1, 0xB2, 0xB3, 0xB5, 0xB7, 0xB9, 0xBD,
             0xBF, 0xE1, 0xE3, 0xE5, 0xE7, 0xE9, 0xEB, 0xED, 0xEF, 0xF1, 0xF2, 0xF3, 0xF5, 0xF7,
             0xF9, 0xFD, 0xFF} then Accumulator
    else if op in {0x04, 0x06, 0x0C, 0x0E, 0x14, 0x16, 0x1C, 0x1E, 0x26, 0x2E, 0x36, 0x3E, 0x46, 0x4E,
             0x56, 0x5E, 0x64, 0x66, 0x6E, 0x74, 0x76, 0x7E, 0x81, 0x83, 0x84, 0x85, 0x86, 0x87,
             0x8C, 0x8D, 0x8E, 0x8F, 0x91, 0x92, 0x93, 0x94, 0x95, 0x96, 0x97, 0x99, 0x9C, 0x9D,
             0x9E, 0x9F, 0xC6, 0xCE, 0xD6, 0xDE, 0xE6, 0xEE, 0xF6, 0xFE} then Store
    else if op in {0x18, 0x24, 0x2C, 0x34, 0x38, 0x3C, 0x42, 0x58, 0x78, 0x89, 0xB8, 0xC0, 0xC1, 0xC3, 0xC4, 0xC5,
                   0xC7, 0xC9, 0xCB, 0xCC, 0xCD, 0xCF, 0xD1, 0xD2, 0xD3, 0xD5, 0xD7, 0xD8, 0xD9, 0xDB, 0xDD, 0xDF,
                   0xE0, 0xE4, 0xEA, 0xEC, 0xF8} then Status
    else if op in {0x10, 0x30, 0x4C, 0x50, 0x6C, 0x70, 0x7C, 0x80, 0x82, 0x90, 0xB0, 0xD0, 0xF0} then Branch
    else if op in {0xA0, 0xA4, 0xAC, 0xB4, 0xBC} then IndexLoad(true)
    else if op in {0xA2, 0xA6, 0xAE, 0xB6, 0xBE} then IndexLoad(false)
    else if op in {0x62, 0xD4, 0xF4} then PushOperand
    else if op in {0x20, 0xFC} then Jsr
    else if op in {0x5C, 0xDC} then JumpLong
    else if op == 0x00 then Software(true)
    else if op == 0x02 then Software(false)
    else if op == 0x08 then Php
    else if op == 0x0B then Phd
    else if op == 0x1B then PointerFromA
    else if op == 0x22 then Jsl
    else if op == 0x28 then Plp
    else if op == 0x2B then Pld
    else if op == 0x40 then Rti
    else if op == 0x44 then BlockMove(false)
    else if op == 0x48 then Pha
    else if op == 0x4B then Phk
    else if op == 0x54 then BlockMove(true)
    else if op == 0x5A then PushIndex(true)
    else if op == 0x5B then DirectFromA
    else if op == 0x60 then Rts
    else if op == 0x68 then Pla
    else if op == 0x6B then Rtl
    else if op == 0x7A then PullIndex(true)
    else if op == 0x88 then IndexStep(true, false)
    else if op == 0x8B then Phb
    else if op == 0x9A then PointerFromX
    else if op == 0x9B then IndexFrom(true, FromX)
    else if op == 0xA8 then IndexFrom(true, FromA)
    else if op == 0xAA then IndexFrom(false, FromA)
    else if op == 0xAB then Plb
    else if op == 0xBA then IndexFrom(false, FromSp)
    else if op == 0xBB then IndexFrom(false, FromY)
    else if op == 0xC2 then ClearBits
    else if op == 0xC8 then IndexStep(true, true)
    else if op == 0xCA then IndexStep(false, false)
    else if op == 0xDA then PushIndex(false)
    else if op == 0xE2 then SetBits
    else if op == 0xE8 then IndexStep(false, true)
    else if op == 0xFA then PullIndex(false)
    else if op == 0xFB then ExchangeCarry
    else Unimplemented
  }

  /** Operand bytes of the instructions that run straight on, given the widths in force. */
  function OperandBytes(op: Byte, wideA: bool, wideX: bool): (n: nat)
    ensures n <= 3
  {
    if op in {0x0F, 0x1F, 0x2F, 0x3F, 0x4F, 0x5F, 0x6F, 0x7F, 0x8F, 0x9F, 0xAF, 0xBF, 0xCF, 0xDF, 0xEF, 0xFF} then 3
    else if op in {0x0C, 0x0D, 0x0E, 0x19, 0x1C, 0x1D, 0x1E, 0x2C, 0x2D, 0x2E, 0x39, 0x3C, 0x3D, 0x3E, 0x4D, 0x4E,
                   0x59, 0x5D, 0x5E, 0x62, 0x6D, 0x6E, 0x79, 0x7D, 0x7E, 0x8C, 0x8D, 0x8E, 0x99, 0x9C, 0x9D, 0x9E,
                   0xAC, 0xAD, 0xAE, 0xB9, 0xBC, 0xBD, 0xBE, 0xCC, 0xCD, 0xCE, 0xD9, 0xDD, 0xDE, 0xEC, 0xED, 0xEE,
                   0xF4, 0xF9, 0xFD, 0xFE} then 2
    else if op in {0x09, 0x29, 0x49, 0x69, 0x89, 0xA9, 0xC9, 0xE9} then (if wideA then 2 else 1)
    else if op in {0xA0, 0xA2, 0xC0, 0xE0} then (if wideX then 2 else 1)
    else if op in {0x01, 0x03, 0x04, 0x05, 0x06, 0x07, 0x11, 0x12, 0x13, 0x14, 0x15, 0x16, 0x17, 0x21, 0x23, 0x24,
                   0x25, 0x26, 0x27, 0x31, 0x32, 0x33, 0x34, 0x35, 0x36, 0x37, 0x41, 0x42, 0x43, 0x45, 0x46, 0x47,
                   0x51, 0x52, 0x53, 0x55, 0x56, 0x57, 0x61, 0x63, 0x64, 0x65, 0x66, 0x67, 0x71, 0x72, 0x73, 0x74,
                   0x75, 0x76, 0x77, 0x81, 0x83, 0x84, 0x85, 0x86, 0x87, 0x91, 0x92, 0x93, 0x94, 0x95, 0x96, 0x97,
                   0xA1, 0xA3, 0xA4, 0xA5, 0xA6, 0xA7, 0xB1, 0xB2, 0xB3, 0xB4, 0xB5, 0xB6, 0xB7, 0xC1, 0xC2, 0xC3,
                   0xC4, 0xC5, 0xC6, 0xC7, 0xD1, 0xD2, 0xD3, 0xD4, 0xD5, 0xD6, 0xD7, 0xE1, 0xE2, 0xE3, 0xE4, 0xE5,
                   0xE6, 0xE7, 0xF1, 0xF2, 0xF3, 0xF5, 0xF6, 0xF7} then 1
    else 0
  }

  function Skipped(pc: Word, n: nat): Word
    requires n <= 4
  {
    if pc + n < 0x1_0000 then pc + n else pc + n - 0x1_0000
  }

  /** The default branch of the decoder, which panics, is unreachable. */
  lemma EveryOpcodeIsImplemented(op: Byte)
    ensures KindOf(op) != Unimplemented
  {
  }

  predicate OnRegisters(k: Kind) {
    k.Accumulator? || k.Store? || k.Status? || k.IndexLoad? || k.IndexFrom? || k.IndexStep?
    || k.PointerFromA? || k.PointerFromX? || k.DirectFromA?
  }

  predicate OnWidths(k: Kind) {
    k.ExchangeCarry? || k.SetBits? || k.ClearBits?
  }

  predicate OnFrames(k: Kind) {
    k.Software? || k.Rti? || k.Plp?
  }

  predicate OnCalls(k: Kind) {
    k.Jsr? || k.Jsl? || k.Rts? || k.Rtl? || k.JumpLong?
  }

  predicate OnPulls(k: Kind) {
    k.Pla? || k.PullIndex? || k.Plb? || k.Pld?
  }

  predicate OnPushes(k: Kind) {
    k.Pha? || k.PushIndex? || k.Php? || k.Phb? || k.Phk?
  }

  /** The next instruction is the one after the operand bytes. */
  predicate Straight(k: Kind) {
    OnRegisters(k) || OnWidths(k) || OnStack(k)
  }

  lemma StraightIsNotTransfer(k: Kind)
    requires Straight(k)
    ensures !k.Branch? && !OnFrames(k) && !OnCalls(k) && !k.BlockMove?
  {
  }

  predicate OnStack(k: Kind) {
    OnPulls(k) || OnPushes(k) || k.Phd? || k.PushOperand?
  }

  /** An index register one up or down: the whole word, or the low byte on its own. */
  function Stepped(lo: Byte, hi: Byte, up: bool, wide: bool): Word {
    if wide then (if up then Inc16(WordOf(lo, hi)) else Dec16(WordOf(lo, hi)))
    else if up then Inc8(lo) else Dec8(lo)
  }

  /** XCE, SEP and REP once their opcode has been fetched. */
  function AfterWidths(k: Kind, s: Core): Core
    requires Sized(s) && OnWidths(k)
  {
    var mask := s.mem[BlockMove.Address(s.pbr, s.pc)];
    match k
    case ExchangeCarry => AfterXce(s)
    case SetBits => AfterSep(s.(pc := Inc16(s.pc)), mask)
    case ClearBits => AfterRep(s.(pc := Inc16(s.pc)), mask)
  }

  /** BRK, COP, RTI and PLP once their opcode has been fetched. */
  function AfterFrame(k: Kind, s: Core): Core
    requires Sized(s) && OnFrames(k)
  {
    match k
    case Software(isBreak) =>
      if isBreak then Enter(s.(pc := Inc16(s.pc)), Break, 0xFFFE, 0xFFE6)
      else Enter(s.(pc := Inc16(s.pc)), Coprocessor, 0xFFF4, 0xFFE4)
    case Rti => Return(s)
    case Plp => PullFlags(s)
  }

  /** The data an instruction works on, from the addressing modes and arithmetic that are not
      modelled: a value, an accumulator result, flags, one or two target addresses, and where a
      branch or jump goes. */
  datatype Operand = Operand(value: Word, result: Word, flags: Flags,
                             at: nat, second: Option<nat>, bank: Byte, next: Word)

  predicate Fits(o: Operand) {
    o.at < MEMORY && (o.second.Some? ==> o.second.value < MEMORY)
  }

  /** What arrives between two instruction boundaries. */
  datatype Input = Instruction(o: Operand) | Nmi | Irq | Abort

  /** The pulled value of the current width, and the flags it sets. */
  function Pulled(s: Core, wide: bool): Word
    requires Sized(s)
  {
    if wide then PullPc(s).pc else Top(Popped(s))
  }

  function PulledPointer(s: Core, wide: bool): Word
    requires Sized(s)
  {
    (if wide then Popped(Popped(s)) else Popped(s)).sp
  }

  function Judged(p: Flags, v: Word, wide: bool): Flags {
    p.(z := v == 0, n := v >= if wide then 0x8000 else 0x80)
  }

  class Cpu {
    const mem: array<Byte>
    var a: Byte
    var b: Byte
    var x: Byte
    var xh: Byte
    var y: Byte
    var yh: Byte
    var sp: Byte
    var spHi: Byte
    var e: bool
    var p: Flags
    var d: Word
    var dbr: Byte
    var pbr: Byte
    var pc: Word

    ghost predicate Valid() {
      mem.Length == MEMORY
    }

    ghost function Now(): (s: Core)
      requires Valid()
      reads this, mem
      ensures Sized(s)
    {
      Core(e, p, WordOf(sp, spHi), xh, yh, pc, pbr, mem[..])
    }

    predicate Wide()
      reads this
    {
      !e && !p.x
    }

    // ---------- stack ----------

    method Push8(v: Byte)
      requires Valid()
      modifies this`sp, this`spHi, mem
      ensures Now() == Push(old(Now()), v)
    {
      PointerBelow(e, sp, spHi);
      mem[WordOf(sp, spHi)] := v;
      if e {
        sp := Dec8(sp);
      } else {
        SetPointer(Dec16(WordOf(sp, spHi)));
      }
    }

    method Pull8() returns (v: Byte)
      requires Valid()
      modifies this`sp, this`spHi
      ensures Now() == Popped(old(Now())) && v == Top(Now())
    {
      PointerAbove(e, sp, spHi);
      if e {
        sp := Inc8(sp);
      } else {
        SetPointer(Inc16(WordOf(sp, spHi)));
      }
      v := mem[WordOf(sp, spHi)];
    }

    method SetPointer(v: Word)
      requires !e
      modifies this`sp, this`spHi
      ensures WordOf(sp, spHi) == v
    {
      sp, spHi := v % 0x100, v / 0x100;
    }

    method Push16(v: Word)
      requires Valid()
      modifies this`sp, this`spHi, mem
      ensures Now() == PushAll(old(Now()), [v / 0x100, v % 0x100])
    {
      PushTwo(Now(), v / 0x100, v % 0x100);
      Push8(v / 0x100);
      Push8(v % 0x100);
    }

    method Pull16() returns (v: Word)
      requires Valid()
      modifies this`sp, this`spHi
      ensures Now() == Popped(Popped(old(Now())))
      ensures v == PullPc(old(Now())).pc
    {
      var lo := Pull8();
      var hi := Pull8();
      v := WordOf(lo, hi);
    }

    // ---------- interrupts ----------

    /** A hardware interrupt: NMI, IRQ or ABORT with its two vectors. */
    method ServiceInterrupt(emulationVector: Word, nativeVector: Word) returns (cycles: nat)
      requires Valid() && emulationVector < 0xFFFF && nativeVector < 0xFFFF
      modifies this`sp, this`spHi, this`p, this`pbr, this`pc, mem
      ensures Now() == Enter(old(Now()), Hardware, emulationVector, nativeVector)
      ensures cycles == if e then 7 else 8
    {
      cycles := EnterAt(Hardware, emulationVector, nativeVector);
    }

    /** BRK and COP: the signature byte is skipped first. */
    method SoftwareInterrupt(entry: Entry) returns (cycles: nat)
      requires Valid() && !entry.Hardware?
      modifies this`sp, this`spHi, this`p, this`pbr, this`pc, mem
      ensures var s := old(Now());
              Now() == Enter(s.(pc := Inc16(s.pc)), entry, if entry.Break? then 0xFFFE else 0xFFF4,
                             if entry.Break? then 0xFFE6 else 0xFFE4)
      ensures cycles == if e then 7 else 8
    {
      pc := Inc16(pc);
      cycles := EnterAt(entry, if entry.Break? then 0xFFFE else 0xFFF4, if entry.Break? then 0xFFE6 else 0xFFE4);
    }

    /** The common tail: frame, bank 0, I set, D clear, vector. */
    method EnterAt(entry: Entry, emulationVector: Word, nativeVector: Word) returns (cycles: nat)
      requires Valid() && emulationVector < 0xFFFF && nativeVector < 0xFFFF
      modifies this`sp, this`spHi, this`p, this`pbr, this`pc, mem
      ensures Now() == Enter(old(Now()), entry, emulationVector, nativeVector)
      ensures cycles == if e then 7 else 8
    {
      PushFrame(entry);
      cycles := if e then 7 else 8;
      var vector := if e then emulationVector else nativeVector;
      pbr := 0;
      p := p.(i := true, d := false);
      pc := WordOf(mem[vector], mem[vector + 1]);
    }

    method PushFrame(entry: Entry)
      requires Valid()
      modifies this`sp, this`spHi, mem
      ensures Now() == PushAll(old(Now()), Frame(old(Now()), entry))
    {
      FrameInSteps(Now(), entry);
      if !e {
        Push8(pbr);
      }
      Push16(pc);
      Push8(Packed(PushedFlags(e, p, entry)));
    }

    method PullStatus()
      requires Valid()
      modifies this`sp, this`spHi, this`p, this`xh, this`yh
      ensures Now() == PullFlags(old(Now()))
    {
      var v := Pull8();
      p := Unpacked(v);
      ApplyWidths();
    }

    /** Emulation locks both width bits; a narrow index loses its high bytes. */
    method ApplyWidths()
      requires Valid()
      modifies this`p, this`xh, this`yh
      ensures Now() == Truncated(old(Now()))
    {
      if e {
        p := p.(m := true, x := true);
      }
      if !Wide() {
        xh, yh := 0, 0;
      }
    }

    method ReturnFromInterrupt() returns (cycles: nat)
      requires Valid()
      modifies this`sp, this`spHi, this`p, this`xh, this`yh, this`pc, this`pbr
      ensures Now() == Return(old(Now()))
      ensures cycles == if e then 6 else 7
    {
      PullStatus();
      pc := Pull16();
      cycles := 6;
      if !e {
        pbr := Pull8();
        cycles := 7;
      }
    }

    // ---------- widths ----------

    /** The width rules survive the call. */
    twostate predicate Kept()
      requires Valid()
      reads this, mem
    {
      (old(Narrowed(Now())) ==> Narrowed(Now())) && (old(Locked(Now())) ==> Locked(Now()))
    }

    method Fetch() returns (v: Byte)
      requires Valid()
      modifies this`pc
      ensures v == mem[BlockMove.Address(pbr, old(pc))] && pc == Inc16(old(pc))
      ensures Now() == old(Now()).(pc := Inc16(old(pc)))
    {
      v := mem[BlockMove.Address(pbr, pc)];
      pc := Inc16(pc);
    }

    method SetBits()
      requires Valid()
      modifies this`pc, this`p, this`xh, this`yh
      ensures var s := old(Now());
              Now() == AfterSep(s.(pc := Inc16(s.pc)), s.mem[BlockMove.Address(s.pbr, s.pc)])
    {
      var mask := Fetch();
      p := Or(p, Unpacked(mask));
      ApplyWidths();
    }

    method ClearBits()
      requires Valid()
      modifies this`pc, this`p
      ensures var s := old(Now());
              Now() == AfterRep(s.(pc := Inc16(s.pc)), s.mem[BlockMove.Address(s.pbr, s.pc)])
    {
      var mask := Fetch();
      p := AndNot(p, Unpacked(mask));
      if e {
        p := p.(m := true, x := true);
      }
    }

    method ExchangeCarry()
      requires Valid()
      modifies this`e, this`p, this`spHi, this`xh, this`yh
      ensures Now() == AfterXce(old(Now()))
    {
      var oldCarry := p.c;
      p := p.(c := e);
      e := oldCarry;
      if e {
        PageOne(sp, spHi);
        spHi, xh, yh := 1, 0, 0;
        p := p.(m := true, x := true);
      }
    }

    method Reset()
      requires Valid()
      modifies this
      ensures Now() == AfterReset(old(Now())) && a == x == y == b == dbr == 0 && d == 0
    {
      ghost var was := Now();
      ClearRegisters();
      pc := WordOf(mem[0xFFFC], mem[0xFFFD]);
      assert pc == WordOf(was.mem[0xFFFC], was.mem[0xFFFD]);
    }

    method ClearRegisters()
      modifies this`a, this`x, this`y, this`sp, this`p,
               this`e, this`b, this`xh, this`yh, this`spHi, this`d, this`dbr, this`pbr
      ensures e && p == Flags(false, false, true, false, false, true, false, false) && sp == 0xFD && spHi == 1
      ensures a == 0 && b == 0 && x == 0 && xh == 0 && y == 0 && yh == 0 && dbr == 0 && pbr == 0 && d == 0
    {
      a, x, y := 0, 0, 0;
      sp := 0xFD;
      p := Flags(false, false, true, false, false, true, false, false);
      ClearWideState();
    }

    method ClearWideState()
      modifies this`e, this`b, this`xh, this`yh, this`spHi, this`d, this`dbr, this`pbr
      ensures e && spHi == 1 && b == 0 && xh == 0 && yh == 0 && dbr == 0 && pbr == 0 && d == 0
    {
      e := true;
      b, xh, yh := 0, 0, 0;
      spHi := 1;
      d, dbr, pbr := 0, 0, 0;
    }

    // ---------- registers at the current width ----------

    method SetZeroNegative(v: Word, wide: bool)
      requires Valid() && (!wide ==> v < 0x100)
      modifies this`p
      ensures p == Judged(old(p), v, wide)
    {
      p := p.(z := v == 0, n := v >= if wide then 0x8000 else 0x80);
    }

    /** One index register took a value at the width in force; the other one stayed. */
    twostate predicate IndexSet(toY: bool, v: Word)
      reads this
    {
      var t := if Wide() then v else v % 0x100;
      var high := if Wide() then v / 0x100 else old(if toY then yh else xh);
      && (if toY then y == v % 0x100 && yh == high && x == old(x) && xh == old(xh)
          else x == v % 0x100 && xh == high && y == old(y) && yh == old(yh))
      && p == Judged(old(p), t, Wide())
    }

    method SetIndex(toY: bool, v: Word)
      requires Valid()
      modifies this`x, this`xh, this`y, this`yh, this`p
      ensures Kept() && IndexSet(toY, v)
    {
      var wide := Wide();
      if toY {
        y := v % 0x100;
        if wide { yh := v / 0x100; }
      } else {
        x := v % 0x100;
        if wide { xh := v / 0x100; }
      }
      SetZeroNegative(if wide then v else v % 0x100, wide);
    }

    /** INX, DEX, INY, DEY at the index width. */
    method StepIndex(toY: bool, up: bool)
      requires Valid()
      modifies this`x, this`xh, this`y, this`yh, this`p
      ensures Kept()
      ensures var hi := old(if toY then yh else xh);
              var v := Stepped(old(if toY then y else x), hi, up, old(Wide()));
              && (if toY then y else x) == v % 0x100
              && (if toY then yh else xh) == if old(Wide()) then v / 0x100 else hi
    {
      SetIndex(toY, Stepped(if toY then y else x, if toY then yh else xh, up, Wide()));
    }

    /** TXS and TCS: emulation keeps the stack in page one. */
    method SetStackFrom(lo: Byte, hi: Byte)
      requires Valid()
      modifies this`sp, this`spHi
      ensures Kept() && sp == lo && spHi == if e then 1 else hi
    {
      sp := lo;
      spHi := if e then 1 else hi;
    }

    // ---------- the newer stack instructions ----------

    method PushRaw(v: Byte)
      requires Valid()
      modifies this`sp, this`spHi, mem
      ensures mem[..] == old(mem[..])[old(WordOf(sp, spHi)) := v]
      ensures WordOf(sp, spHi) == Dec16(old(WordOf(sp, spHi)))
    {
      var at := WordOf(sp, spHi);
      mem[at] := v;
      var next := Dec16(at);
      sp, spHi := next % 0x100, next / 0x100;
    }

    method PullRaw() returns (v: Byte)
      requires Valid()
      modifies this`sp, this`spHi
      ensures WordOf(sp, spHi) == Inc16(old(WordOf(sp, spHi))) && v == mem[WordOf(sp, spHi)]
    {
      var next := Inc16(WordOf(sp, spHi));
      sp, spHi := next % 0x100, next / 0x100;
      v := mem[next];
    }

    method Reforce()
      requires Valid()
      modifies this`spHi
      ensures spHi == if e then 1 else old(spHi)
    {
      if e {
        spHi := 1;
      }
    }

    /** PHD, PEA, PEI, PER. */
    method PushWordNew(v: Word)
      requires Valid()
      modifies this`sp, this`spHi, mem
      ensures Now() == PushNew(old(Now()), v)
    {
      PushRaw(v / 0x100);
      PushRaw(v % 0x100);
      PageOne(sp, spHi);
      Reforce();
    }

    /** PLD. */
    method PullWordNew() returns (v: Word)
      requires Valid()
      modifies this`sp, this`spHi
      ensures v == PullNew(old(Now())).0 && Now() == PullNew(old(Now())).1
    {
      var lo := PullRaw();
      var hi := PullRaw();
      PageOne(sp, spHi);
      Reforce();
      v := WordOf(lo, hi);
    }

    // ---------- one instruction ----------

    method PushWidth(v: Word, wide: bool)
      requires Valid()
      modifies this`sp, this`spHi, mem
      ensures Kept() && Now() == PushWord(old(Now()), v, wide)
    {
      StackKeeps(Now(), v % 0x100);
      if wide {
        PushTwo(Now(), v / 0x100, v % 0x100);
        StackKeeps(Now(), v / 0x100);
        StackKeeps(Push(Now(), v / 0x100), v % 0x100);
        Push16(v);
      } else {
        Push8(v % 0x100);
      }
    }

    method PullWidth(wide: bool) returns (v: Word)
      requires Valid()
      modifies this`sp, this`spHi
      ensures Kept() && (!wide ==> v < 0x100)
      ensures var s := old(Now());
              if wide then v == PullPc(s).pc && Now() == Popped(Popped(s))
              else v == Top(Popped(s)) && Now() == Popped(s)
    {
      StackKeeps(Now(), 0);
      StackKeeps(Popped(Now()), 0);
      if wide {
        v := Pull16();
      } else {
        v := Pull8();
      }
    }

    /** MVN and MVP: 16-bit indexes and count whatever the widths. Native 16-bit indexes aside, the
        width rules survive exactly when neither index runs out of its eight bits. */
    method MoveBlock(up: bool) returns (cycles: nat)
      requires Valid()
      modifies this`pc, this`a, this`b, this`x, this`xh, this`y, this`yh, this`dbr, mem
      ensures var step, n := (if up then 1 else -1), old(WordOf(a, b)) + 1;
              && cycles == 7 * n && WordOf(a, b) == 0xFFFF
              && WordOf(x, xh) == BlockMove.Along(old(WordOf(x, xh)), n, step)
              && WordOf(y, yh) == BlockMove.Along(old(WordOf(y, yh)), n, step)
              && dbr == old(mem[BlockMove.Address(pbr, pc)]) && pc == old(Inc16(Inc16(pc)))
              && BlockMove.Moved(mem[..], old(mem[..]), dbr, old(mem[BlockMove.Address(pbr, Inc16(pc))]),
                                 old(WordOf(x, xh)), old(WordOf(y, yh)), step, n)
      ensures var step, n := (if up then 1 else -1), old(WordOf(a, b)) + 1;
              old(Narrowed(Now())) ==>
                (Narrowed(Now()) <==>
                   old(Wide()) || (BlockMove.Along(old(WordOf(x, xh)), n, step) < 0x100
                                   && BlockMove.Along(old(WordOf(y, yh)), n, step) < 0x100))
      ensures old(Wide()) ==> Kept()
    {
      var dst := Fetch();
      var src := Fetch();
      cycles := MoveBanks(dst, src, if up then 1 else -1);
    }

    /** The move itself, between the banks the operand bytes name. */
    method MoveBanks(dst: Byte, src: Byte, step: int) returns (cycles: nat)
      requires Valid() && step in {1, -1}
      modifies this`a, this`b, this`x, this`xh, this`y, this`yh, this`dbr, mem
      ensures var n := old(WordOf(a, b)) + 1;
              && dbr == dst && cycles == 7 * n && WordOf(a, b) == 0xFFFF
              && WordOf(x, xh) == BlockMove.Along(old(WordOf(x, xh)), n, step)
              && WordOf(y, yh) == BlockMove.Along(old(WordOf(y, yh)), n, step)
              && BlockMove.Moved(mem[..], old(mem[..]), dst, src, old(WordOf(x, xh)), old(WordOf(y, yh)), step, n)
      ensures (WordOf(x, xh) < 0x100 <==> xh == 0) && (WordOf(y, yh) < 0x100 <==> yh == 0)
    {
      dbr := dst;
      var c1, x1, y1, n := BlockMove.Move(mem, WordOf(a, b), WordOf(x, xh), WordOf(y, yh), dst, src, step);
      SetAccumulator(c1);
      SetIndexes(x1, y1);
      cycles := n;
    }

    /** MVN of one byte with X at $FF in emulation: the index leaves its eight bits. */
    method NarrowMoveBreaks()
      requires Valid() && Locked(Now()) && e && WordOf(x, xh) == 0xFF && WordOf(a, b) == 0
      modifies this`pc, this`a, this`b, this`x, this`xh, this`y, this`yh, this`dbr, mem
      ensures !Narrowed(Now()) && xh == 1
    {
      assert BlockMove.Along(0xFF, 1, 1) == 0x100;
      var _ := MoveBlock(true);
    }

    method SetIndexes(x1: Word, y1: Word)
      modifies this`x, this`xh, this`y, this`yh
      ensures WordOf(x, xh) == x1 && WordOf(y, yh) == y1
      ensures (x1 < 0x100 <==> xh == 0) && (y1 < 0x100 <==> yh == 0)
    {
      x, xh := x1 % 0x100, x1 / 0x100;
      y, yh := y1 % 0x100, y1 / 0x100;
    }

    method SetFlags(flags: Flags)
      modifies this`p
      ensures p == flags.(m := old(p.m), x := old(p.x))
    {
      p := flags.(m := p.m, x := p.x);
    }

    method SetAccumulator(v: Word)
      modifies this`a, this`b
      ensures WordOf(a, b) == v
    {
      a, b := v % 0x100, v / 0x100;
    }

    /** One instruction, with its data given by `o`. */
    method Step(o: Operand) returns (kind: Kind)
      requires Valid() && Fits(o)
      modifies this, mem
      ensures kind == KindAt(old(Now())) && Executes(old(Now()), o, Now())
    {
      kind := Perform(o);
    }

    /** Decodes one instruction and carries it out. */
    method Perform(o: Operand) returns (kind: Kind)
      requires Valid() && Fits(o)
      modifies this, mem
      ensures kind == KindOf(old(mem[BlockMove.Address(pbr, pc)]))
      ensures (kind.BlockMove? && !old(Wide())) || Kept()
      ensures OnWidths(kind) ==> Now() == AfterWidths(kind, old(Now()).(pc := Inc16(old(pc))))
      ensures OnFrames(kind) ==> Now() == AfterFrame(kind, old(Now()).(pc := Inc16(old(pc))))
      ensures kind.Jsr? ==> Now() == AfterJsr(old(Now()).(pc := Inc16(old(pc))), o.next)
      ensures kind.Rts? ==> Now() == AfterRts(old(Now()).(pc := Inc16(old(pc))))
      ensures Straight(kind) ==>
                pc == Skipped(old(pc), 1 + OperandBytes(old(mem[BlockMove.Address(pbr, pc)]),
                                                        old(WideAccumulator()), old(Wide())))
    {
      var op := Fetch();
      kind := KindOf(op);
      EveryOpcodeIsImplemented(op);
      if kind.BlockMove? {
        MoveSomeBlock(kind.up);
      } else if Straight(kind) {
        var n := OperandBytes(op, WideAccumulator(), Wide());
        StraightLengths(op, WideAccumulator(), Wide());
        SkipOn(old(pc), n);
        StraightIsNotTransfer(kind);
        ExecuteStraight(kind, n, o);
      } else {
        ExecuteTransfer(kind, o);
      }
    }

    method MoveSomeBlock(up: bool)
      requires Valid()
      modifies this`pc, this`a, this`b, this`x, this`xh, this`y, this`yh, this`dbr, mem
      ensures old(Wide()) ==> Kept()
    {
      var _ := MoveBlock(up);
    }

    /** Branches, jumps, calls, returns and interrupts. */
    method ExecuteTransfer(kind: Kind, o: Operand)
      requires Valid() && (kind.Branch? || OnFrames(kind) || OnCalls(kind))
      modifies this`sp, this`spHi, this`p, this`xh, this`yh, this`pc, this`pbr, mem
      ensures Kept()
      ensures OnFrames(kind) ==> Now() == AfterFrame(kind, old(Now()))
      ensures kind.Jsr? ==> Now() == AfterJsr(old(Now()), o.next)
      ensures kind.Rts? ==> Now() == AfterRts(old(Now()))
    {
      if OnFrames(kind) {
        StepFrame(kind);
      } else if OnCalls(kind) {
        StepCall(kind, o);
      } else {
        Jump(o.next);
      }
    }

    method Jump(next: Word)
      requires Valid()
      modifies this`pc
      ensures Kept()
    {
      pc := next;
    }

    /** Everything that goes on with the instruction after its operand bytes. */
    method ExecuteStraight(kind: Kind, n: nat, o: Operand)
      requires Valid() && Fits(o) && Straight(kind) && n <= 3 && LengthFits(kind, n)
      modifies this, mem
      ensures Kept() && pc == Skipped(old(pc), n)
      ensures OnWidths(kind) ==> Now() == AfterWidths(kind, old(Now()))
    {
      if OnRegisters(kind) {
        StepRegisters(kind, n, o);
      } else if OnWidths(kind) {
        StepWidths(kind);
      } else {
        StepStack(kind, n, o);
      }
    }

    /** Any run of instructions and hardware interrupts out of reset, with the states it passes
        through: narrow indexes and the emulation stack stay in order unless one of those states
        stands at a block move with narrow indexes. */
    method RunFromReset(inputs: seq<Input>) returns (ghost path: seq<Core>)
      requires Valid() && forall n | 0 <= n < |inputs| :: inputs[n].Instruction? ==> Fits(inputs[n].o)
      modifies this, mem
      ensures Path(path, inputs) && path[0] == AfterReset(old(Now())) && path[|inputs|] == Now()
      ensures (forall n | 0 <= n < |inputs| && inputs[n].Instruction? :: !AtNarrowMove(path[n])) ==> Narrowed(Now())
    {
      Reset();
      PagePreserved(0xFD);
      path := [Now()];
      ghost var start := Now();
      for n := 0 to |inputs|
        invariant |path| == n + 1 && path[0] == start && path[n] == Now() && Path(path, inputs[..n])
      {
        Take(inputs[n]);
        PathGoesOn(path, inputs[..n], inputs[n], Now());
        assert inputs[..n] + [inputs[n]] == inputs[..n + 1];
        path := path + [Now()];
      }
      assert inputs[..|inputs|] == inputs;
      StaysNarrowed(path, inputs);
    }

    /** One instruction or hardware interrupt. */
    method Take(input: Input)
      requires Valid() && (input.Instruction? ==> Fits(input.o))
      modifies this, mem
      ensures Follows(old(Now()), input, Now())
    {
      match input {
        case Nmi => Interrupt(0xFFFA, 0xFFEA);
        case Irq => Interrupt(0xFFFE, 0xFFEE);
        case Abort => Interrupt(0xFFF8, 0xFFE8);
        case Instruction(o) => var _ := Step(o);
      }
    }

    method Interrupt(emulationVector: Word, nativeVector: Word)
      requires Valid() && emulationVector < 0xFFFF && nativeVector < 0xFFFF
      modifies this`sp, this`spHi, this`p, this`pbr, this`pc, mem
      ensures Now() == Enter(old(Now()), Hardware, emulationVector, nativeVector)
    {
      var _ := ServiceInterrupt(emulationVector, nativeVector);
    }

    /** Register, memory and flag instructions. */
    method StepRegisters(kind: Kind, n: nat, o: Operand)
      requires Valid() && Fits(o) && OnRegisters(kind) && n <= 3
      modifies this`a, this`b, this`x, this`xh, this`y, this`yh, this`d, this`p, this`pc, this`sp, this`spHi, mem
      ensures Kept()
      ensures pc == Skipped(old(pc), n)
    {
      pc := Skipped(pc, n);
      match kind {
        case Accumulator => SetAccumulator(o.result); SetFlags(o.flags);
        case Store => StoreAt(o); SetFlags(o.flags);
        case Status => SetFlags(o.flags);
        case IndexLoad(toY) => SetIndex(toY, o.value);
        case IndexFrom(toY, source) =>
          SetIndex(toY, match source
                        case FromA => WordOf(a, b) case FromX => WordOf(x, xh)
                        case FromY => WordOf(y, yh) case FromSp => WordOf(sp, spHi));
        case IndexStep(toY, up) => StepIndex(toY, up);
        case PointerFromA => SetStackFrom(a, b);
        case PointerFromX => SetStackFrom(x, xh);
        case DirectFromA => d := WordOf(a, b); SetFlags(o.flags);
      }
    }

    /** One or two bytes of memory change. */
    method StoreAt(o: Operand)
      requires Valid() && Fits(o)
      modifies mem
    {
      mem[o.at] := o.value % 0x100;
      if o.second.Some? {
        mem[o.second.value] := o.value / 0x100;
      }
    }

    /** XCE, SEP and REP. */
    method StepWidths(kind: Kind)
      requires Valid() && OnWidths(kind)
      modifies this`pc, this`e, this`p, this`spHi, this`xh, this`yh
      ensures Kept() && Now() == AfterWidths(kind, old(Now()))
      ensures pc == Skipped(old(pc), if kind.ExchangeCarry? then 0 else 1)
    {
      WidthsLock(Now(), mem[BlockMove.Address(pbr, pc)]);
      match kind {
        case ExchangeCarry => ExchangeCarry();
        case SetBits => SetBits();
        case ClearBits => ClearBits();
      }
    }

    /** Interrupt frames and PLP. */
    method StepFrame(kind: Kind)
      requires Valid() && OnFrames(kind)
      modifies this`sp, this`spHi, this`p, this`xh, this`yh, this`pc, this`pbr, mem
      ensures Kept() && Now() == AfterFrame(kind, old(Now()))
    {
      ghost var s := Now().(pc := Inc16(pc));
      match kind {
        case Software(isBreak) =>
          var entry := if isBreak then Break else Coprocessor;
          EnterKeeps(s, entry, if isBreak then 0xFFFE else 0xFFF4, if isBreak then 0xFFE6 else 0xFFE4);
          var _ := SoftwareInterrupt(entry);
        case Rti =>
          ReturnKeeps(Now());
          var _ := ReturnFromInterrupt();
        case Plp =>
          WidthsLock(Now(), 0);
          PullStatus();
      }
    }

    /** Calls and returns. */
    method StepCall(kind: Kind, o: Operand)
      requires Valid() && OnCalls(kind)
      modifies this`sp, this`spHi, this`pc, this`pbr, mem
      ensures Kept()
      ensures kind.Jsr? ==> Now() == AfterJsr(old(Now()), o.next)
      ensures kind.Rts? ==> Now() == AfterRts(old(Now()))
    {
      match kind {
        case Jsr =>
          PushWidth(Inc16(pc), true);
          pc := o.next;
        case Jsl =>
          CallLong();
        case Rts =>
          var at := PullWidth(true);
          pc := Inc16(at);
        case Rtl =>
          ReturnLong();
        case JumpLong =>
          pbr, pc := o.bank, o.next;
      }
    }

    /** JSL pushes the bank before it fetches the last operand byte. */
    method CallLong()
      requires Valid()
      modifies this`sp, this`spHi, this`pc, this`pbr, mem
      ensures Kept()
    {
      var lo := Fetch();
      var mid := Fetch();
      PushRaw(pbr);
      var hi := Fetch();
      var back := Dec16(pc);
      PushRaw(back / 0x100);
      PushRaw(back % 0x100);
      Reforce();
      pbr, pc := hi, WordOf(lo, mid);
      PageOne(sp, spHi);
    }

    method ReturnLong()
      requires Valid()
      modifies this`sp, this`spHi, this`pc, this`pbr
      ensures Kept()
    {
      var lo := PullRaw();
      var hi := PullRaw();
      pbr := PullRaw();
      Reforce();
      var at := WordOf(lo, hi);
      pc := Inc16(at);
      PageOne(sp, spHi);
    }

    method StepStack(kind: Kind, n: nat, o: Operand)
      requires Valid() && OnStack(kind) && n <= 3
      modifies this`a, this`b, this`x, this`xh, this`y, this`yh, this`d, this`dbr, this`p, this`pc,
               this`sp, this`spHi, mem
      ensures Kept()
      ensures pc == if kind.PushOperand? then Skipped(old(pc), n) else old(pc)
    {
      if OnPulls(kind) {
        StepPull(kind);
      } else if kind.Phd? {
        StepPushNew(d);
      } else if kind.PushOperand? {
        pc := Skipped(pc, n);
        StepPushNew(o.value);
      } else {
        StepPush(kind);
      }
    }

    /** The value a plain push instruction pushes, and whether as two bytes. */
    function PushedValue(kind: Kind): Word
      requires OnPushes(kind)
      reads this
    {
      match kind
      case Pha => WordOf(a, b)
      case PushIndex(ofY) => if ofY then WordOf(y, yh) else WordOf(x, xh)
      case Php => Packed(p)
      case Phb => dbr
      case Phk => pbr
    }

    predicate PushesWord(kind: Kind)
      reads this
    {
      (kind.Pha? && WideAccumulator()) || (kind.PushIndex? && Wide())
    }

    /** PHA, PHX, PHY, PHP, PHB and PHK. */
    method StepPush(kind: Kind)
      requires Valid() && OnPushes(kind)
      modifies this`sp, this`spHi, mem
      ensures Kept()
      ensures match kind
              case Pha => Now() == PushWord(old(Now()), old(WordOf(a, b)), !e && !p.m)
              case PushIndex(ofY) =>
                Now() == PushWord(old(Now()), old(if ofY then WordOf(y, yh) else WordOf(x, xh)), !e && !p.x)
              case Php => Now() == PushWord(old(Now()), Packed(p), false)
              case Phb => Now() == PushWord(old(Now()), dbr, false)
              case Phk => Now() == PushWord(old(Now()), pbr, false)
    {
      PushWidth(PushedValue(kind), PushesWord(kind));
    }

    /** PHD, PEA, PEI and PER. */
    method StepPushNew(v: Word)
      requires Valid()
      modifies this`sp, this`spHi, mem
      ensures Kept() && Now() == PushNew(old(Now()), v)
    {
      NewKeeps(Now(), v);
      PushWordNew(v);
    }

    /** Pulls of registers. */
    method StepPull(kind: Kind)
      requires Valid() && OnPulls(kind)
      modifies this`a, this`b, this`x, this`xh, this`y, this`yh, this`d, this`dbr, this`p, this`sp, this`spHi
      ensures Kept()
    {
      match kind {
        case Pla => PullAccumulator();
        case PullIndex(toY) => PullIndex(toY);
        case Plb => PullDataBank();
        case Pld => PullDirect();
      }
    }

    /** PLA: the accumulator at its width, its high byte kept when narrow. */
    method PullAccumulator()
      requires Valid()
      modifies this`a, this`b, this`p, this`sp, this`spHi
      ensures Kept()
      ensures var wide := old(WideAccumulator());
              var v := Pulled(old(Now()), wide);
              && (if wide then WordOf(a, b) == v else a == v && b == old(b)) && p == Judged(old(p), v, wide)
      ensures WordOf(sp, spHi) == PulledPointer(old(Now()), old(WideAccumulator()))
    {
      var wide := WideAccumulator();
      var v := PullWidth(wide);
      if wide {
        SetAccumulator(v);
      } else {
        a := v;
      }
      SetZeroNegative(v, wide);
    }

    /** PLX and PLY: the index at its width, its high byte kept when narrow. */
    method PullIndex(toY: bool)
      requires Valid()
      modifies this`x, this`xh, this`y, this`yh, this`p, this`sp, this`spHi
      ensures Kept()
      ensures IndexSet(toY, Pulled(old(Now()), old(Wide())))
      ensures WordOf(sp, spHi) == PulledPointer(old(Now()), old(Wide()))
    {
      var wide := Wide();
      var v := PullWidth(wide);
      SetIndex(toY, v);
    }

    /** PLB. */
    method PullDataBank()
      requires Valid()
      modifies this`dbr, this`p, this`sp, this`spHi
      ensures Kept() && dbr == Pulled(old(Now()), false) && p == Judged(old(p), dbr, false)
      ensures WordOf(sp, spHi) == PulledPointer(old(Now()), false)
    {
      var v := PullWidth(false);
      dbr := v;
      SetZeroNegative(v, false);
    }

    /** PLD. */
    method PullDirect()
      requires Valid()
      modifies this`d, this`p, this`sp, this`spHi
      ensures Kept() && p == Judged(old(p), d, true)
      ensures d == PullNew(old(Now())).0 && WordOf(sp, spHi) == PullNew(old(Now())).1.sp
    {
      NewKeeps(Now(), 0);
      d := PullWordNew();
      SetZeroNegative(d, true);
    }

    predicate WideAccumulator()
      reads this
    {
      !e && !p.m
    }
  }

  // ---------- increments and flags ----------

  /** INX and its kin count by one within the width in force, and back again. */
  lemma IndexCounts(lo: Byte, hi: Byte, wide: bool)
    ensures var up, down := Stepped(lo, hi, true, wide), Stepped(lo, hi, false, wide);
            if wide then
              && up == (if WordOf(lo, hi) == 0xFFFF then 0 else WordOf(lo, hi) + 1)
              && down == (if WordOf(lo, hi) == 0 then 0xFFFF else WordOf(lo, hi) - 1)
            else
              && up == (if lo == 0xFF then 0 else lo + 1) && down == (if lo == 0 then 0xFF else lo - 1)
  {
  }

  /** N is the top bit of a result at its width, Z says that it is zero, and no other flag changes. */
  lemma ResultFlags(p: Flags, v: Word, wide: bool)
    requires wide || v < 0x100
    ensures var q := Judged(p, v, wide);
            && (q.z <==> v == 0) && (q.n <==> v / (if wide then 0x8000 else 0x80) == 1)
            && q == p.(z := q.z, n := q.n)
  {
  }

  // ---------- the opcode matrix ----------

  /** Operand bytes by row and column of the matrix: immediates as wide as their register, two bytes
      in the columns of absolute addresses, three in that of long ones, none in the implied ones. */
  function ColumnBytes(row: nat, column: nat, wideA: bool, wideX: bool): nat {
    if column == 0x0 then (if wideX then 2 else 1)
    else if column == 0x2 && row == 0xA then (if wideX then 2 else 1)
    else if (column == 0x2 && row == 0x6) || (column == 0x4 && row == 0xF) then 2
    else if column < 0x8 then 1
    else if column == 0x9 then (if row % 2 == 1 then 2 else if wideA then 2 else 1)
    else if column < 0xC then 0
    else if column < 0xF then 2
    else 3
  }

  lemma BytesByColumn(op: Byte, wideA: bool, wideX: bool)
    ensures Straight(KindOf(op)) ==>
              OperandBytes(op, wideA, wideX) == ColumnBytes(op / 16, op % 16, wideA, wideX)
  {
    if op < 0x40 {
      BytesInRows0(op, wideA, wideX);
    } else if op < 0x80 {
      BytesInRows4(op, wideA, wideX);
    } else if op < 0xC0 {
      BytesInRows8(op, wideA, wideX);
    } else {
      BytesInRowsC(op, wideA, wideX);
    }
  }

  lemma BytesInRows0(op: Byte, wideA: bool, wideX: bool)
    requires op < 0x40
    ensures Straight(KindOf(op)) ==>
              OperandBytes(op, wideA, wideX) == ColumnBytes(op / 16, op % 16, wideA, wideX)
  {
  }

  lemma BytesInRows4(op: Byte, wideA: bool, wideX: bool)
    requires 0x40 <= op < 0x80
    ensures Straight(KindOf(op)) ==>
              OperandBytes(op, wideA, wideX) == ColumnBytes(op / 16, op % 16, wideA, wideX)
  {
  }

  lemma BytesInRows8(op: Byte, wideA: bool, wideX: bool)
    requires 0x80 <= op < 0xC0
    ensures Straight(KindOf(op)) ==>
              OperandBytes(op, wideA, wideX) == ColumnBytes(op / 16, op % 16, wideA, wideX)
  {
  }

  lemma BytesInRowsC(op: Byte, wideA: bool, wideX: bool)
    requires 0xC0 <= op
    ensures Straight(KindOf(op)) ==>
              OperandBytes(op, wideA, wideX) == ColumnBytes(op / 16, op % 16, wideA, wideX)
  {
  }

  /** In bank 0 at the address a vector holds, with interrupts masked and decimal mode off. */
  predicate StartedAt(s: Core, vector: Word)
    requires Sized(s) && vector < 0xFFFF
  {
    s.pbr == 0 && s.p.i && !s.p.d && s.pc % 0x100 == s.mem[vector] && s.pc / 0x100 == s.mem[vector + 1]
  }

  lemma SoftwareVectors(isBreak: bool, s: Core)
    requires Sized(s)
    ensures var t := AfterFrame(Software(isBreak), s);
            Sized(t) && StartedAt(t, if s.e then (if isBreak then 0xFFFE else 0xFFF4)
                                     else if isBreak then 0xFFE6 else 0xFFE4)
  {
    var u := s.(pc := Inc16(s.pc));
    if isBreak {
      EntryStarts(u, Break, 0xFFFE, 0xFFE6, 2);
    } else {
      EntryStarts(u, Coprocessor, 0xFFF4, 0xFFE4, 2);
    }
  }

  /** Hardware interrupts and their vectors. */
  lemma HardwareVectors(s: Core, input: Input, s': Core)
    requires Sized(s) && Sized(s') && !input.Instruction? && Follows(s, input, s')
    ensures StartedAt(s', match input
                          case Nmi => if s.e then 0xFFFA else 0xFFEA
                          case Irq => if s.e then 0xFFFE else 0xFFEE
                          case Abort => if s.e then 0xFFF8 else 0xFFE8)
  {
    match input
    case Nmi => EntryStarts(s, Hardware, 0xFFFA, 0xFFEA, 2);
    case Irq => EntryStarts(s, Hardware, 0xFFFE, 0xFFEE, 2);
    case Abort => EntryStarts(s, Hardware, 0xFFF8, 0xFFE8, 2);
  }

  // ---------- runs ----------

  function OpcodeAt(s: Core): Byte
    requires Sized(s)
  {
    s.mem[BlockMove.Address(s.pbr, s.pc)]
  }

  function KindAt(s: Core): Kind
    requires Sized(s)
  {
    KindOf(OpcodeAt(s))
  }

  /** About to run a block move with narrow indexes. */
  predicate AtNarrowMove(s: Core)
    requires Sized(s)
  {
    KindAt(s).BlockMove? && !WideIndex(s)
  }

  /** One instruction. */
  predicate Executes(s: Core, o: Operand, s': Core)
    requires Sized(s) && Sized(s')
  {
    ExecutesAs(KindAt(s), s, o, s')
  }

  /** One instruction of a given kind. Everything but a block move with narrow indexes keeps the width
      rules. */
  predicate ExecutesAs(kind: Kind, s: Core, o: Operand, s': Core)
    requires Sized(s) && Sized(s')
  {
    var t := s.(pc := Inc16(s.pc));
    && ((kind.BlockMove? && !WideIndex(s)) || ((Narrowed(s) ==> Narrowed(s')) && (Locked(s) ==> Locked(s'))))
    && (OnWidths(kind) ==> s' == AfterWidths(kind, t))
    && (OnFrames(kind) ==> s' == AfterFrame(kind, t))
    && (kind.Jsr? ==> s' == AfterJsr(t, o.next))
    && (kind.Rts? ==> s' == AfterRts(t))
    && (Straight(kind) ==>
          s'.pc == Skipped(s.pc, 1 + OperandBytes(OpcodeAt(s), !s.e && !s.p.m, WideIndex(s))))
  }

  /** One instruction, or one interrupt through its own vectors. */
  predicate Follows(s: Core, input: Input, s': Core)
    requires Sized(s) && Sized(s')
  {
    match input
    case Nmi => s' == Enter(s, Hardware, 0xFFFA, 0xFFEA)
    case Irq => s' == Enter(s, Hardware, 0xFFFE, 0xFFEE)
    case Abort => s' == Enter(s, Hardware, 0xFFF8, 0xFFE8)
    case Instruction(o) => Executes(s, o, s')
  }

  /** The byte after the opcode. */
  function MaskAt(s: Core): Byte
    requires Sized(s)
  {
    s.mem[BlockMove.Address(s.pbr, Inc16(s.pc))]
  }

  /** The opcodes of the instructions below. */
  lemma WidthOpcodes(op: Byte)
    ensures op == 0xE2 ==> KindOf(op) == SetBits
    ensures op == 0xC2 ==> KindOf(op) == ClearBits
  {
  }

  lemma ExchangeOpcode(op: Byte)
    ensures op == 0xFB ==> KindOf(op) == ExchangeCarry
  {
  }

  lemma SoftwareOpcodes(op: Byte)
    ensures op == 0x00 ==> KindOf(op) == Software(true)
    ensures op == 0x02 ==> KindOf(op) == Software(false)
  {
  }

  /** $E2 sets the status bits of the byte after it and goes on behind that byte. */
  lemma SepInstruction(s: Core, o: Operand, s': Core, i: nat)
    requires Sized(s) && Sized(s') && i < 8 && ExecutesAs(SetBits, s, o, s')
    ensures On(Packed(s'.p), i) <==> On(Packed(s.p), i) || On(MaskAt(s), i) || (s.e && IsWidthBit(i))
    ensures s'.pc == Inc16(Inc16(s.pc)) && s'.mem == s.mem && s'.sp == s.sp && s'.e == s.e
  {
    SepSets(s.(pc := Inc16(Inc16(s.pc))), MaskAt(s), i);
  }

  /** $C2 clears them. */
  lemma RepInstruction(s: Core, o: Operand, s': Core, i: nat)
    requires Sized(s) && Sized(s') && i < 8 && ExecutesAs(ClearBits, s, o, s')
    ensures On(Packed(s'.p), i) <==> (On(Packed(s.p), i) && !On(MaskAt(s), i)) || (s.e && IsWidthBit(i))
    ensures s'.pc == Inc16(Inc16(s.pc)) && s'.mem == s.mem && s'.sp == s.sp && s'.e == s.e
  {
    RepClears(s.(pc := Inc16(Inc16(s.pc))), MaskAt(s), i);
  }

  /** $FB exchanges C and E. */
  lemma XceInstruction(s: Core, o: Operand, s': Core)
    requires Sized(s) && Sized(s') && ExecutesAs(ExchangeCarry, s, o, s')
    ensures s'.e == s.p.c && s'.p.c == s.e && s'.pc == Inc16(s.pc) && s'.mem == s.mem
  {
    XceExchanges(s.(pc := Inc16(s.pc)), 0);
  }

  /** $00 skips its signature byte and goes to the vector at $FFFE, natively at $FFE6. */
  lemma BrkInstruction(s: Core, o: Operand, s': Core)
    requires Sized(s) && Sized(s') && ExecutesAs(Software(true), s, o, s')
    ensures StartedAt(s', if s.e then 0xFFFE else 0xFFE6)
  {
    SoftwareVectors(true, s.(pc := Inc16(s.pc)));
  }

  /** $02 does the same at $FFF4, natively at $FFE4. */
  lemma CopInstruction(s: Core, o: Operand, s': Core)
    requires Sized(s) && Sized(s') && ExecutesAs(Software(false), s, o, s')
    ensures StartedAt(s', if s.e then 0xFFF4 else 0xFFE4)
  {
    SoftwareVectors(false, s.(pc := Inc16(s.pc)));
  }

  ghost predicate Path(path: seq<Core>, inputs: seq<Input>) {
    && |path| == |inputs| + 1 && (forall n | 0 <= n < |path| :: Sized(path[n]))
    && forall n | 0 <= n < |inputs| :: Follows(path[n], inputs[n], path[n + 1])
  }

  lemma PathGoesOn(path: seq<Core>, inputs: seq<Input>, input: Input, s: Core)
    requires Path(path, inputs) && Sized(s) && Follows(path[|inputs|], input, s)
    ensures Path(path + [s], inputs + [input])
  {
    var path', inputs' := path + [s], inputs + [input];
    forall n | 0 <= n < |inputs'| ensures Follows(path'[n], inputs'[n], path'[n + 1]) {
      assert n < |inputs| ==> Follows(path[n], inputs[n], path[n + 1]);
    }
  }

  lemma FollowsKeeps(s: Core, input: Input, s': Core)
    requires Sized(s) && Sized(s') && Follows(s, input, s') && Narrowed(s)
    requires input.Instruction? ==> !AtNarrowMove(s)
    ensures Narrowed(s')
  {
    match input
    case Nmi => EnterKeeps(s, Hardware, 0xFFFA, 0xFFEA);
    case Irq => EnterKeeps(s, Hardware, 0xFFFE, 0xFFEE);
    case Abort => EnterKeeps(s, Hardware, 0xFFF8, 0xFFE8);
    case Instruction(_) =>
  }

  /** The width rules hold along a run up to the first block move with narrow indexes. */
  lemma {:induction false} StaysNarrowed(path: seq<Core>, inputs: seq<Input>)
    requires Path(path, inputs) && Narrowed(path[0])
    ensures (forall n | 0 <= n < |inputs| && inputs[n].Instruction? :: !AtNarrowMove(path[n]))
            ==> Narrowed(path[|inputs|])
    decreases |inputs|
  {
    if |inputs| > 0 {
      var m := |inputs| - 1;
      assert Follows(path[m], inputs[m], path[m + 1]);
      StaysNarrowed(path[..m + 1], inputs[..m]);
      if forall n | 0 <= n < |inputs| && inputs[n].Instruction? :: !AtNarrowMove(path[n]) {
        FollowsKeeps(path[m], inputs[m], path[m + 1]);
      }
    }
  }

  lemma SkipOn(pc: Word, n: nat)
    requires n <= 3
    ensures Skipped(Inc16(pc), n) == Skipped(pc, 1 + n)
  {
  }

  /** Stack instructions other than PEA, PEI and PER have no operand bytes; SEP and REP have one. */
  predicate LengthFits(k: Kind, n: nat) {
    && ((OnStack(k) && !k.PushOperand?) || k.ExchangeCarry? ==> n == 0)
    && (k.SetBits? || k.ClearBits? ==> n == 1)
  }

  lemma StraightLengths(op: Byte, wideA: bool, wideX: bool)
    ensures LengthFits(KindOf(op), OperandBytes(op, wideA, wideX))
  {
  }

  lemma WidthsLock(s: Core, mask: Byte)
    requires Sized(s)
    ensures var t := s.(pc := Inc16(s.pc));
            Narrowed(s) ==>
              Locked(AfterSep(t, mask)) && Locked(AfterRep(t, mask)) && Locked(AfterXce(s)) && Locked(PullFlags(s))
  {
    if Narrowed(s) {
      WidthChangesLock(s, mask);
      WidthChangesLock(s.(pc := Inc16(s.pc)), mask);
    }
  }

  lemma EnterKeeps(s: Core, entry: Entry, emulationVector: Word, nativeVector: Word)
    requires Sized(s) && emulationVector < 0xFFFF && nativeVector < 0xFFFF
    ensures var t := Enter(s, entry, emulationVector, nativeVector);
            (Narrowed(s) ==> Narrowed(t)) && (Locked(s) ==> Locked(t))
  {
    PushAllKeeps(s, Frame(s, entry));
  }

  lemma {:induction false} PushAllKeeps(s: Core, bytes: seq<Byte>)
    requires Sized(s)
    ensures var t := PushAll(s, bytes);
            t == s.(sp := t.sp, mem := t.mem) && (Narrowed(s) ==> Narrowed(t)) && (Locked(s) ==> Locked(t))
    decreases |bytes|
  {
    if bytes != [] {
      StackKeeps(s, bytes[0]);
      PushAllKeeps(Push(s, bytes[0]), bytes[1..]);
    }
  }

  lemma ReturnKeeps(s: Core)
    requires Sized(s)
    ensures Narrowed(s) ==> Locked(Return(s))
  {
    if Narrowed(s) {
      WidthChangesLock(s, 0);
      var t := PullFlags(s);
      StackKeeps(t, 0);
      StackKeeps(Popped(t), 0);
      StackKeeps(PullPc(t), 0);
    }
  }

  lemma ReforcedPage(sp: Word)
    ensures Reforced(true, sp) / 0x100 == 1
  {
  }

  lemma NewKeeps(s: Core, v: Word)
    requires Sized(s)
    ensures Narrowed(s) ==> Narrowed(PushNew(s, v)) && Narrowed(PullNew(s).1)
    ensures Locked(s) ==> Locked(PushNew(s, v)) && Locked(PullNew(s).1)
  {
    ReforcedPage(Dec16(Dec16(s.sp)));
    ReforcedPage(Inc16(Inc16(s.sp)));
  }

  /** Pushes and pulls of the ordinary kind stay in the page, so the width rules survive. */
  lemma StackKeeps(s: Core, v: Byte)
    requires Sized(s)
    ensures Narrowed(s) ==> Narrowed(Push(s, v)) && Narrowed(Popped(s))
    ensures Locked(s) ==> Locked(Push(s, v)) && Locked(Popped(s))
  {
    PagePreserved(s.sp);
  }

  lemma PageOne(sp: Byte, spHi: Byte)
    ensures WordOf(sp, 1) == 0x100 + WordOf(sp, spHi) % 0x100
  {
  }

  lemma WordParts(lo: Byte, hi: Byte)
    ensures WordOf(lo, hi) % 0x100 == lo && WordOf(lo, hi) / 0x100 == hi
  {
  }

  lemma PointerBelow(e: bool, sp: Byte, spHi: Byte)
    ensures var w := WordOf(sp, spHi);
            Below(e, w) == if e then WordOf(Dec8(sp), spHi) else Dec16(w)
  {
    WordParts(sp, spHi);
  }

  lemma PointerAbove(e: bool, sp: Byte, spHi: Byte)
    ensures var w := WordOf(sp, spHi);
            Above(e, w) == if e then WordOf(Inc8(sp), spHi) else Inc16(w)
  {
    WordParts(sp, spHi);
  }

  lemma PushOne(s: Core, v: Byte)
    requires Sized(s)
    ensures PushAll(s, [v]) == Push(s, v)
  {
    assert [v][1..] == [];
  }

  lemma PushTwo(s: Core, v: Byte, w: Byte)
    requires Sized(s)
    ensures PushAll(s, [v, w]) == Push(Push(s, v), w)
  {
    var bytes := [v, w];
    assert PushAll(s, bytes) == PushAll(Push(s, v), [w]) by {
      assert bytes[1..] == [w];
    }
    PushOne(Push(s, v), w);
  }

  /** An entry's frame is the bank in native mode, then the program counter, then the flags. */
  lemma FrameInSteps(s: Core, entry: Entry)
    requires Sized(s)
    ensures var t := if s.e then s else Push(s, s.pbr);
            PushAll(s, Frame(s, entry))
            == Push(PushAll(t, [s.pc / 0x100, s.pc % 0x100]), Packed(PushedFlags(s.e, s.p, entry)))
  {
    var hi, lo, f := s.pc / 0x100, s.pc % 0x100, Packed(PushedFlags(s.e, s.p, entry));
    PushThree(if s.e then s else Push(s, s.pbr), hi, lo, f);
    if !s.e {
      assert Frame(s, entry)[1..] == [hi, lo, f];
    } else {
      assert Frame(s, entry) == [hi, lo, f];
    }
  }

  lemma PushThree(s: Core, u: Byte, v: Byte, w: Byte)
    requires Sized(s)
    ensures PushAll(s, [u, v, w]) == Push(PushAll(s, [u, v]), w)
  {
    PushTwo(s, u, v);
    PushTwo(Push(s, u), v, w);
    assert [u, v, w][1..] == [v, w];
  }
}
