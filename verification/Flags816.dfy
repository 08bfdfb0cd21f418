/** What SEP, REP, XCE, PLP and interrupt entries do to the status register, bit by bit. */
module Flags816 {
  import opened Basics
  import opened Core816

  const X_BIT := 4
  const M_BIT := 5

  function Weight(i: nat): nat
    requires i < 8
  {
    match i
    case 0 => 1
    case 1 => 2
    case 2 => 4
    case 3 => 8
    case 4 => 0x10
    case 5 => 0x20
    case 6 => 0x40
    case _ => 0x80
  }

  /** Bit i of a byte. */
  predicate On(b: Byte, i: nat)
    requires i < 8
  {
    b / Weight(i) % 2 == 1
  }

  /** C, Z, I, D, X, M, V and N from bit 0 up. */
  predicate FlagAt(f: Flags, i: nat)
    requires i < 8
  {
    match i
    case 0 => f.c
    case 1 => f.z
    case 2 => f.i
    case 3 => f.d
    case 4 => f.x
    case 5 => f.m
    case 6 => f.v
    case _ => f.n
  }

  lemma BitsOfByte(b: Byte, i: nat)
    requires i < 8
    ensures On(b, i) <==> FlagAt(Unpacked(b), i)
  {
    var h, l := b / 0x10, b % 0x10;
    assert b == 0x10 * h + l;
    if i >= 4 {
      HighBits(h, l);
      NibbleBits(h);
    } else {
      LowBits(h, l);
      NibbleBits(l);
    }
  }

  lemma NibbleBits(x: nat)
    requires x < 0x10
    ensures (x / 2 % 2 == 1 <==> x % 4 >= 2) && (x / 4 % 2 == 1 <==> x % 8 >= 4) && (x / 8 % 2 == 1 <==> x >= 8)
  {
  }

  lemma HighBits(h: nat, l: nat)
    requires h < 0x10 && l < 0x10
    ensures var b := 0x10 * h + l; b / 0x10 == h && b / 0x20 == h / 2 && b / 0x40 == h / 4 && b / 0x80 == h / 8
  {
  }

  lemma LowBits(h: nat, l: nat)
    requires h < 0x10 && l < 0x10
    ensures var b := 0x10 * h + l;
            b % 2 == l % 2 && b / 2 % 2 == l / 2 % 2 && b / 4 % 2 == l / 4 % 2 && b / 8 % 2 == l / 8 % 2
  {
    var b := 0x10 * h + l;
    assert b / 2 == 8 * h + l / 2;
    assert b / 4 == 4 * h + l / 4;
    assert b / 8 == 2 * h + l / 8;
  }

  lemma BitsOfFlags(f: Flags, i: nat)
    requires i < 8
    ensures On(Packed(f), i) <==> FlagAt(f, i)
  {
    BitsOfByte(Packed(f), i);
    PackedRoundTrip(f);
  }

  predicate IsWidthBit(i: nat) {
    i == X_BIT || i == M_BIT
  }

  /** SEP sets the bits of its mask and, in emulation, both width bits; an index that is narrow then
      loses its high byte. */
  lemma SepSets(s: Core, mask: Byte, i: nat)
    requires i < 8
    ensures var t := AfterSep(s, mask);
            && (On(Packed(t.p), i) <==> On(Packed(s.p), i) || On(mask, i) || (s.e && IsWidthBit(i)))
            && t == s.(p := t.p, xh := t.xh, yh := t.yh)
            && (if WideIndex(t) then t.xh == s.xh && t.yh == s.yh else t.xh == t.yh == 0)
  {
    BitsOfFlags(s.p, i);
    BitsOfFlags(AfterSep(s, mask).p, i);
    BitsOfByte(mask, i);
  }

  /** REP clears the bits of its mask, but not the width bits of emulation. */
  lemma RepClears(s: Core, mask: Byte, i: nat)
    requires i < 8
    ensures var t := AfterRep(s, mask);
            && (On(Packed(t.p), i) <==> (On(Packed(s.p), i) && !On(mask, i)) || (s.e && IsWidthBit(i)))
            && t == s.(p := t.p)
  {
    BitsOfFlags(s.p, i);
    BitsOfFlags(AfterRep(s, mask).p, i);
    BitsOfByte(mask, i);
  }

  /** Natively SEP then REP of the same mask leaves the mask's bits clear and the others alone. */
  lemma SepThenRep(s: Core, mask: Byte, i: nat)
    requires i < 8 && !s.e
    ensures On(Packed(AfterRep(AfterSep(s, mask), mask).p), i) <==> On(Packed(s.p), i) && !On(mask, i)
  {
    SepSets(s, mask, i);
    RepClears(AfterSep(s, mask), mask, i);
  }

  /** XCE exchanges C and E; a second one exchanges them back. On the way into emulation both width
      bits are set, the stack goes to page one at its own low byte, and the indexes go narrow. */
  lemma XceExchanges(s: Core, i: nat)
    requires i < 8
    ensures var t := AfterXce(s);
            && t.e == s.p.c && t.p.c == s.e && AfterXce(t).e == s.e && AfterXce(t).p.c == s.p.c
            && (i != 0 ==> (On(Packed(t.p), i) <==> On(Packed(s.p), i) || (t.e && IsWidthBit(i))))
            && (if t.e then t.sp / 0x100 == 1 && t.sp % 0x100 == s.sp % 0x100 && t.xh == t.yh == 0
                else t == s.(e := t.e, p := t.p))
  {
    BitsOfFlags(s.p, i);
    BitsOfFlags(AfterXce(s).p, i);
  }

  /** PLP takes every flag from the byte on the stack, emulation keeping its width bits. */
  lemma PlpPulls(s: Core, i: nat)
    requires Sized(s) && i < 8
    ensures On(Packed(PullFlags(s).p), i) <==> On(Top(Popped(s)), i) || (s.e && IsWidthBit(i))
  {
    BitsOfFlags(PullFlags(s).p, i);
    BitsOfByte(Top(Popped(s)), i);
  }

  /** An entry goes to bank 0 at the vector of its mode, low byte first, with I set, D clear and the
      other flags as they were. */
  lemma EntryStarts(s: Core, entry: Entry, emulationVector: Word, nativeVector: Word, i: nat)
    requires Sized(s) && emulationVector < 0xFFFF && nativeVector < 0xFFFF && i < 8
    ensures var t := Enter(s, entry, emulationVector, nativeVector);
            var v := if s.e then emulationVector else nativeVector;
            && Sized(t) && t.pbr == 0 && t.e == s.e && t.pc % 0x100 == t.mem[v] && t.pc / 0x100 == t.mem[v + 1]
            && (On(Packed(t.p), i) <==> if i == 2 then true else if i == 3 then false else On(Packed(s.p), i))
  {
    var t := Enter(s, entry, emulationVector, nativeVector);
    var v := if s.e then emulationVector else nativeVector;
    EnterPushesFrame(s, entry, emulationVector, nativeVector);
    HalvesOfWord(t.mem[v], t.mem[v + 1]);
    BitsOfFlags(s.p, i);
    BitsOfFlags(t.p, i);
  }

  lemma HalvesOfWord(lo: Byte, hi: Byte)
    ensures WordOf(lo, hi) % 0x100 == lo && WordOf(lo, hi) / 0x100 == hi
  {
  }

  /** The status byte an entry pushes last. In emulation bit 4 is set for BRK and clear for a hardware
      interrupt, which also sets bit 5; everything else is as it was. */
  lemma EntryPushesFlags(s: Core, entry: Entry, i: nat)
    requires i < 8
    ensures var pushed := Frame(s, entry)[|Frame(s, entry)| - 1];
            On(pushed, i) <==>
              if s.e && i == 4 && !entry.Coprocessor? then entry.Break?
              else if s.e && i == 5 && entry.Hardware? then true
              else On(Packed(s.p), i)
  {
    BitsOfFlags(s.p, i);
    BitsOfFlags(PushedFlags(s.e, s.p, entry), i);
  }

  /** JSR goes on at its target, having pushed the address of its last operand byte, high byte first. */
  lemma JsrLands(s: Core, target: Word)
    requires Sized(s)
    ensures var t := AfterJsr(s, target);
            var back := Inc16(s.pc);
            && Sized(t) && t.pc == target && t.e == s.e && t.p == s.p && t.pbr == s.pbr
            && t.mem[s.sp] == back / 0x100 && t.mem[Below(s.e, s.sp)] == back % 0x100
            && t.sp == Below(s.e, Below(s.e, s.sp))
  {
    PushAllHolds(s, [Inc16(s.pc) / 0x100, Inc16(s.pc) % 0x100]);
    TwoPushes(s, Inc16(s.pc) / 0x100, Inc16(s.pc) % 0x100);
  }

  lemma TwoPushes(s: Core, hi: Byte, lo: Byte)
    requires Sized(s)
    ensures PushAll(s, [hi, lo])
            == s.(mem := s.mem[s.sp := hi][Below(s.e, s.sp) := lo], sp := Below(s.e, Below(s.e, s.sp)))
    ensures Below(s.e, s.sp) != s.sp
  {
    assert [hi, lo][1..] == [lo] && [lo][1..] == [];
    assert PushAll(Push(s, hi), [lo]) == Push(Push(s, hi), lo);
  }

  /** Reset starts in emulation at the vector, low byte first, with I set, D clear, the stack at $1FD
      and bank 0. */
  lemma ResetStarts(s: Core)
    requires Sized(s)
    ensures var r := AfterReset(s);
            && r.e && r.p.i && !r.p.d && r.p.m && r.sp == 0x1FD && r.pbr == 0 && r.mem == s.mem
            && r.pc % 0x100 == s.mem[0xFFFC] && r.pc / 0x100 == s.mem[0xFFFD]
  {
    HalvesOfWord(s.mem[0xFFFC], s.mem[0xFFFD]);
  }
}
