/** The 65816's register widths, its stack, and its interrupt frames as values. */
module Core816 {
  import opened Basics

  const MEMORY := 0x100_0000

  // ---------- the status register ----------

  /** In emulation mode bits 5 and 4 are the 6502's U and B; natively they are M and X. */
  datatype Flags = Flags(n: bool, v: bool, m: bool, x: bool, d: bool, i: bool, z: bool, c: bool)

  function Bit(b: bool, weight: nat): nat {
    if b then weight else 0
  }

  type Nibble = x: int | 0 <= x < 0x10

  function PackNibble(b3: bool, b2: bool, b1: bool, b0: bool): Nibble {
    Bit(b3, 8) + Bit(b2, 4) + Bit(b1, 2) + Bit(b0, 1)
  }

  function Packed(f: Flags): Byte {
    0x10 * PackNibble(f.n, f.v, f.m, f.x) + PackNibble(f.d, f.i, f.z, f.c)
  }

  function Bits(x: Nibble): (bool, bool, bool, bool) {
    (x >= 8, x % 8 >= 4, x % 4 >= 2, x % 2 == 1)
  }

  function Joined(h: (bool, bool, bool, bool), l: (bool, bool, bool, bool)): Flags {
    Flags(h.0, h.1, h.2, h.3, l.0, l.1, l.2, l.3)
  }

  function Unpacked(b: Byte): Flags {
    Joined(Bits(b / 0x10), Bits(b % 0x10))
  }

  lemma NibbleRoundTrip(b3: bool, b2: bool, b1: bool, b0: bool)
    ensures Bits(PackNibble(b3, b2, b1, b0)) == (b3, b2, b1, b0)
  {
  }

  lemma Halves(b: Byte, h: Nibble, l: Nibble)
    requires b == 0x10 * h + l
    ensures b / 0x10 == h && b % 0x10 == l
  {
  }

  lemma PackedRoundTrip(f: Flags)
    ensures Unpacked(Packed(f)) == f
  {
    var h, l := PackNibble(f.n, f.v, f.m, f.x), PackNibble(f.d, f.i, f.z, f.c);
    Halves(Packed(f), h, l);
    NibbleRoundTrip(f.n, f.v, f.m, f.x);
    NibbleRoundTrip(f.d, f.i, f.z, f.c);
  }

  function Or(f: Flags, g: Flags): Flags {
    Flags(f.n || g.n, f.v || g.v, f.m || g.m, f.x || g.x, f.d || g.d, f.i || g.i, f.z || g.z, f.c || g.c)
  }

  function AndNot(f: Flags, g: Flags): Flags {
    Flags(f.n && !g.n, f.v && !g.v, f.m && !g.m, f.x && !g.x, f.d && !g.d, f.i && !g.i, f.z && !g.z, f.c && !g.c)
  }

  // ---------- the part of the machine that widths and frames depend on ----------

  datatype Core = Core(e: bool, p: Flags, sp: Word, xh: Byte, yh: Byte, pc: Word, pbr: Byte, mem: seq<Byte>)

  ghost predicate Sized(s: Core) {
    |s.mem| == MEMORY
  }

  /** The index registers are 16 bits wide. */
  predicate WideIndex(s: Core) {
    !s.e && !s.p.x
  }

  /** What every instruction may rely on: a narrow index has zero high bytes, and emulation keeps
      the stack in page one with the accumulator width bit set. */
  predicate Narrowed(s: Core) {
    && (!WideIndex(s) ==> s.xh == 0 && s.yh == 0)
    && (s.e ==> s.sp / 0x100 == 1 && s.p.m)
  }

  /** In addition emulation has the index width bit set. */
  predicate Locked(s: Core) {
    Narrowed(s) && (s.e ==> s.p.x)
  }

  /** Width bits forced in emulation, index high bytes cleared when narrow. */
  function Truncated(s: Core): Core {
    var p := if s.e then s.p.(m := true, x := true) else s.p;
    var t := s.(p := p);
    if WideIndex(t) then t else t.(xh := 0, yh := 0)
  }

  function AfterSep(s: Core, mask: Byte): Core {
    Truncated(s.(p := Or(s.p, Unpacked(mask))))
  }

  function AfterRep(s: Core, mask: Byte): Core {
    var p := AndNot(s.p, Unpacked(mask));
    s.(p := if s.e then p.(m := true, x := true) else p)
  }

  /** Carry and the emulation bit change places. */
  function AfterXce(s: Core): Core {
    var p := s.p.(c := s.e);
    if s.p.c then s.(e := true, sp := 0x100 + s.sp % 0x100, xh := 0, yh := 0, p := p.(m := true, x := true))
    else s.(e := false, p := p)
  }

  /** Reset enters emulation with U and I set and everything else clear. */
  function AfterReset(s: Core): Core
    requires Sized(s)
  {
    Core(true, Flags(false, false, true, false, false, true, false, false), 0x1FD, 0, 0,
         WordOf(s.mem[0xFFFC], s.mem[0xFFFD]), 0, s.mem)
  }

  // ---------- wrapping steps ----------

  function Inc8(b: Byte): Byte {
    if b == 0xFF then 0 else b + 1
  }

  function Dec8(b: Byte): Byte {
    if b == 0 then 0xFF else b - 1
  }

  function Inc16(w: Word): Word {
    if w == 0xFFFF then 0 else w + 1
  }

  function Dec16(w: Word): Word {
    if w == 0 then 0xFFFF else w - 1
  }

  // ---------- the stack ----------

  /** The pointer moved by one: within its page in emulation, through all of bank 0 natively. */
  function Below(e: bool, sp: Word): Word {
    if e && sp % 0x100 == 0 then sp + 0xFF else if sp == 0 then 0xFFFF else sp - 1
  }

  function Above(e: bool, sp: Word): Word {
    if e && sp % 0x100 == 0xFF then sp - 0xFF else if sp == 0xFFFF then 0 else sp + 1
  }

  function Push(s: Core, v: Byte): (t: Core)
    requires Sized(s)
    ensures Sized(t)
  {
    s.(mem := s.mem[s.sp := v], sp := Below(s.e, s.sp))
  }

  function PushAll(s: Core, bytes: seq<Byte>): (t: Core)
    requires Sized(s)
    ensures Sized(t)
    decreases |bytes|
  {
    if bytes == [] then s else PushAll(Push(s, bytes[0]), bytes[1..])
  }

  function Popped(s: Core): Core {
    s.(sp := Above(s.e, s.sp))
  }

  /** The byte a pull finds after moving the pointer. */
  function Top(s: Core): Byte
    requires Sized(s)
  {
    s.mem[s.sp]
  }

  // ---------- interrupt entry and return ----------

  /** A hardware interrupt, or BRK or COP whose signature byte has already been skipped. */
  datatype Entry = Hardware | Break | Coprocessor

  function PushedFlags(e: bool, p: Flags, entry: Entry): Flags {
    if !e || entry.Coprocessor? then p
    else if entry.Break? then p.(x := true)
    else p.(m := true, x := false)
  }

  /** What an entry pushes, in order. */
  function Frame(s: Core, entry: Entry): seq<Byte> {
    (if s.e then [] else [s.pbr]) + [s.pc / 0x100, s.pc % 0x100, Packed(PushedFlags(s.e, s.p, entry))]
  }

  /** The frame, then bank 0 with I set and D clear at the vector of the current mode. */
  function Enter(s: Core, entry: Entry, emulationVector: Word, nativeVector: Word): Core
    requires Sized(s) && emulationVector < 0xFFFF && nativeVector < 0xFFFF
  {
    var t := PushAll(s, Frame(s, entry));
    var vector := if s.e then emulationVector else nativeVector;
    t.(pbr := 0, p := s.p.(i := true, d := false), pc := WordOf(t.mem[vector], t.mem[vector + 1]))
  }

  /** PLP: pull the flags and re-apply the widths. */
  function PullFlags(s: Core): Core
    requires Sized(s)
  {
    var t := Popped(s);
    Truncated(t.(p := Unpacked(Top(t))))
  }

  function PullPc(s: Core): Core
    requires Sized(s)
  {
    var lo := Popped(s);
    var hi := Popped(lo);
    hi.(pc := WordOf(Top(lo), Top(hi)))
  }

  function PullBank(s: Core): Core
    requires Sized(s)
  {
    var t := Popped(s);
    t.(pbr := Top(t))
  }

  function Return(s: Core): Core
    requires Sized(s)
  {
    var t := PullPc(PullFlags(s));
    if t.e then t else PullBank(t)
  }

  // ---------- subroutines ----------

  /** Pushes a word, high byte first, or only a byte. */
  function PushWord(s: Core, v: Word, wide: bool): (t: Core)
    requires Sized(s)
    ensures Sized(t)
  {
    if wide then PushAll(s, [v / 0x100, v % 0x100]) else Push(s, v % 0x100)
  }

  /** JSR once its opcode has been fetched: the address of the last operand byte is pushed. */
  function AfterJsr(s: Core, target: Word): Core
    requires Sized(s)
  {
    PushWord(s, Inc16(s.pc), true).(pc := target)
  }

  function AfterRts(s: Core): Core
    requires Sized(s)
  {
    var t := PullPc(s);
    t.(pc := Inc16(t.pc))
  }

  // ---------- what they promise ----------

  /** Every width-changing operation leaves the machine locked, from wherever it can have got to. */
  lemma WidthChangesLock(s: Core, mask: Byte)
    requires Narrowed(s)
    ensures Locked(AfterSep(s, mask)) && Locked(AfterRep(s, mask)) && Locked(AfterXce(s))
    ensures Sized(s) ==> Locked(PullFlags(s))
  {
    PagePreserved(s.sp);
  }

  lemma PagePreserved(sp: Word)
    ensures Above(true, sp) / 0x100 == sp / 0x100 && Below(true, sp) / 0x100 == sp / 0x100
    ensures (0x100 + sp % 0x100) / 0x100 == 1
  {
  }

  /** Reset alone leaves the index width bit clear in emulation, so one XCE with the carry it also
      cleared arrives in native mode with 16-bit index registers. */
  lemma ResetDoesNotLock(s: Core)
    requires Sized(s)
    ensures var r := AfterReset(s); Narrowed(r) && !Locked(r) && !WideIndex(r) && WideIndex(AfterXce(r))
  {
  }

  /** The address of the k-th push from here. */
  function Slot(e: bool, sp: Word, k: nat): Word
    decreases k
  {
    if k == 0 then sp else Slot(e, Below(e, sp), k - 1)
  }

  lemma UpUndoesDown(e: bool, sp: Word)
    ensures Above(e, Below(e, sp)) == sp
  {
  }

  lemma {:induction false} NextSlot(e: bool, sp: Word, k: nat)
    ensures Slot(e, sp, k + 1) == Below(e, Slot(e, sp, k))
    decreases k
  {
    if k > 0 {
      NextSlot(e, Below(e, sp), k - 1);
    }
  }

  /** Pushes until the pointer wraps, and how far it then jumps. */
  function Depth(e: bool, sp: Word): nat {
    if e then sp % 0x100 else sp
  }

  function Span(e: bool): nat {
    if e then 0x100 else 0x1_0000
  }

  lemma BelowIsShallower(e: bool, sp: Word)
    ensures var t := Below(e, sp);
            if Depth(e, sp) == 0 then t == sp - 1 + Span(e) && Depth(e, t) == Span(e) - 1
            else t == sp - 1 && Depth(e, t) == Depth(e, sp) - 1
  {
  }

  /** k pushes further down, without wrapping twice. */
  lemma {:induction false} SlotAt(e: bool, sp: Word, k: nat)
    requires k < 0x100
    ensures Slot(e, sp, k) == if k <= Depth(e, sp) then sp - k else sp - k + Span(e)
    decreases k
  {
    if k > 0 {
      BelowIsShallower(e, sp);
      SlotAt(e, Below(e, sp), k - 1);
    }
  }

  lemma SlotsDiffer(e: bool, sp: Word, i: nat, j: nat)
    requires i < j < 0x100
    ensures Slot(e, sp, i) != Slot(e, sp, j)
  {
    SlotAt(e, sp, i);
    SlotAt(e, sp, j);
  }

  ghost predicate Holds(mem: seq<Byte>, e: bool, sp: Word, bytes: seq<Byte>)
    requires |mem| == MEMORY
  {
    forall k | 0 <= k < |bytes| :: mem[Slot(e, sp, k)] == bytes[k]
  }

  lemma {:induction false} PushAllLeaves(s: Core, bytes: seq<Byte>, a: nat)
    requires Sized(s) && a < MEMORY && forall k | 0 <= k < |bytes| :: a != Slot(s.e, s.sp, k)
    ensures PushAll(s, bytes).mem[a] == s.mem[a]
    decreases |bytes|
  {
    if bytes != [] {
      var u, rest := Push(s, bytes[0]), bytes[1..];
      assert a != Slot(s.e, s.sp, 0);
      forall k | 0 <= k < |rest| ensures a != Slot(u.e, u.sp, k) {
        assert a != Slot(s.e, s.sp, k + 1);
      }
      PushAllLeaves(u, rest, a);
    }
  }

  /** Pushed bytes stay where they were put, wherever the stack wraps. */
  lemma {:induction false} PushAllHolds(s: Core, bytes: seq<Byte>)
    requires Sized(s) && |bytes| < 0x100
    ensures var t := PushAll(s, bytes);
            Holds(t.mem, s.e, s.sp, bytes) && t == s.(mem := t.mem, sp := Slot(s.e, s.sp, |bytes|))
    decreases |bytes|
  {
    if bytes != [] {
      var u, rest := Push(s, bytes[0]), bytes[1..];
      PushAllHolds(u, rest);
      var t := PushAll(s, bytes);
      forall k | 0 <= k < |rest| ensures s.sp != Slot(u.e, u.sp, k) {
        SlotsDiffer(s.e, s.sp, 0, k + 1);
      }
      PushAllLeaves(u, rest, s.sp);
      forall k | 0 <= k < |bytes| ensures t.mem[Slot(s.e, s.sp, k)] == bytes[k] {
        if k > 0 {
          assert t.mem[Slot(u.e, u.sp, k - 1)] == rest[k - 1];
        }
      }
    }
  }

  /** RTI over the frame of an interrupt that is still on the stack: the program counter and the
      stack pointer always come back; the flags come back exactly when emulation had both width
      bits set; the program bank comes back in native mode only (in emulation the frame does not
      hold it, so the handler's bank stays). */
  lemma InterruptReturns(s: Core, entry: Entry, later: Core)
    requires Sized(s) && Sized(later) && later.e == s.e
    requires later.sp == Slot(s.e, s.sp, |Frame(s, entry)|) && Holds(later.mem, s.e, s.sp, Frame(s, entry))
    ensures var r := Return(later);
            && r.pc == s.pc && r.sp == s.sp && r.e == s.e && r.mem == later.mem
            && (r.p == s.p <==> (s.e ==> s.p.m && s.p.x))
            && r.pbr == (if s.e then later.pbr else s.pbr)
  {
    FrameComesBack(later.mem, s.e, s.sp, Frame(s, entry));
    ReturnReads(later);
    FrameHigh(s.pc);
    PackedRoundTrip(PushedFlags(s.e, s.p, entry));
    FlagsForced(s.e, s.p, entry);
  }

  /** Reading upwards from below a frame finds it in reverse. */
  lemma FrameComesBack(mem: seq<Byte>, e: bool, sp: Word, f: seq<Byte>)
    requires |mem| == MEMORY && |f| == (if e then 3 else 4) && Holds(mem, e, sp, f)
    ensures var a := Above(e, Slot(e, sp, |f|));
            var b := Above(e, a);
            var c := Above(e, b);
            var d := Above(e, c);
            && mem[a] == f[|f| - 1] && mem[b] == f[|f| - 2] && mem[c] == f[|f| - 3]
            && if e then c == sp else d == sp && mem[d] == f[0]
  {
    var n := |f|;
    Unwind(e, sp, n);
    assert mem[Slot(e, sp, n - 1)] == f[n - 1];
    assert mem[Slot(e, sp, n - 2)] == f[n - 2];
    assert mem[Slot(e, sp, n - 3)] == f[n - 3];
    assert mem[Slot(e, sp, 0)] == f[0];
  }

  /** Forcing the width bits on what an entry pushed. */
  lemma FlagsForced(e: bool, p: Flags, entry: Entry)
    ensures var q := PushedFlags(e, p, entry);
            var r := if e then q.(m := true, x := true) else q;
            if e ==> p.m && p.x then r == p else r.m != p.m || r.x != p.x
  {
    match entry
    case Hardware =>
    case Break =>
    case Coprocessor =>
  }

  lemma FrameHigh(pc: Word)
    ensures WordOf(pc % 0x100, pc / 0x100) == pc
  {
  }

  /** The addresses a return reads, in order. */
  lemma ReturnReads(s: Core)
    requires Sized(s)
    ensures var a := Above(s.e, s.sp);
            var b := Above(s.e, a);
            var c := Above(s.e, b);
            var d := Above(s.e, c);
            var p := Unpacked(s.mem[a]);
            var r := Return(s);
            && r.p == (if s.e then p.(m := true, x := true) else p) && r.pc == WordOf(s.mem[b], s.mem[c])
            && r.e == s.e && r.mem == s.mem
            && r.sp == (if s.e then c else d) && r.pbr == (if s.e then s.pbr else s.mem[d])
  {
  }

  /** Pulling walks the slots back up. */
  lemma Unwind(e: bool, sp: Word, n: nat)
    requires n <= 4
    ensures forall k | 0 <= k < n :: Above(e, Slot(e, sp, k + 1)) == Slot(e, sp, k)
  {
    forall k | 0 <= k < n ensures Above(e, Slot(e, sp, k + 1)) == Slot(e, sp, k) {
      NextSlot(e, sp, k);
      UpUndoesDown(e, Slot(e, sp, k));
    }
  }

  /** Entering puts that frame there. */
  lemma EnterPushesFrame(s: Core, entry: Entry, emulationVector: Word, nativeVector: Word)
    requires Sized(s) && emulationVector < 0xFFFF && nativeVector < 0xFFFF
    ensures var t := Enter(s, entry, emulationVector, nativeVector);
            && Sized(t) && t.e == s.e && t.pbr == 0 && t.sp == Slot(s.e, s.sp, |Frame(s, entry)|)
            && Holds(t.mem, s.e, s.sp, Frame(s, entry))
  {
    PushAllHolds(s, Frame(s, entry));
  }

  /** RTS over the two bytes a JSR pushed resumes after the call, wherever the stack wraps. */
  lemma CallReturns(s: Core, target: Word, later: Core)
    requires Sized(s) && Sized(later)
    requires var t := AfterJsr(s, target);
             && later.e == t.e && later.sp == t.sp
             && forall k | 0 <= k < 2 :: later.mem[Slot(s.e, s.sp, k)] == t.mem[Slot(s.e, s.sp, k)]
    ensures var r := AfterRts(later); r.pc == Inc16(Inc16(s.pc)) && r.sp == s.sp
  {
    var back := Inc16(s.pc);
    var bytes := [back / 0x100, back % 0x100];
    PushAllHolds(s, bytes);
    FrameHigh(back);
    Unwind(s.e, s.sp, 2);
    assert later.mem[Slot(s.e, s.sp, 1)] == bytes[1] && later.mem[Slot(s.e, s.sp, 0)] == bytes[0];
  }

  /** An interrupt whose handler returns with its frame, its mode and its stack pointer as they
      were on entry resumes what it interrupted; in emulation only a program that ran in bank 0 gets
      its bank back. */
  lemma HandlerReturns(s: Core, entry: Entry, emulationVector: Word, nativeVector: Word, later: Core)
    requires Sized(s) && Sized(later) && emulationVector < 0xFFFF && nativeVector < 0xFFFF
    requires var t := Enter(s, entry, emulationVector, nativeVector);
             && later.e == t.e && later.sp == t.sp && later.pbr == t.pbr
             && forall k | 0 <= k < |Frame(s, entry)| :: later.mem[Slot(s.e, s.sp, k)] == t.mem[Slot(s.e, s.sp, k)]
    ensures var r := Return(later);
            && r.pc == s.pc && r.sp == s.sp && r.e == s.e
            && (r.p == s.p <==> (s.e ==> s.p.m && s.p.x)) && (r.pbr == s.pbr <==> (s.e ==> s.pbr == 0))
  {
    EnterPushesFrame(s, entry, emulationVector, nativeVector);
    InterruptReturns(s, entry, later);
  }

  /** Reset leaves X clear in emulation, so an interrupt straight after it returns with X set. */
  lemma ResetLosesFlags(s: Core, emulationVector: Word, nativeVector: Word)
    requires Sized(s) && emulationVector < 0xFFFF && nativeVector < 0xFFFF
    ensures var r := AfterReset(s);
            var back := Return(Enter(r, Hardware, emulationVector, nativeVector));
            !r.p.x && back.p != r.p && back.pc == r.pc
  {
    EnterPushesFrame(AfterReset(s), Hardware, emulationVector, nativeVector);
    HandlerReturns(AfterReset(s), Hardware, emulationVector, nativeVector,
                   Enter(AfterReset(s), Hardware, emulationVector, nativeVector));
  }

  /** A native program outside bank 0 that enters emulation loses its bank at the next interrupt. */
  lemma EmulationLosesBank(s: Core, emulationVector: Word, nativeVector: Word)
    requires Sized(s) && !s.e && s.p.c && s.pbr != 0 && emulationVector < 0xFFFF && nativeVector < 0xFFFF
    ensures var r := AfterXce(s);
            var back := Return(Enter(r, Hardware, emulationVector, nativeVector));
            r.e && r.pbr == s.pbr && back.pbr == 0 && back.pc == r.pc && back.p == r.p
  {
    var r := AfterXce(s);
    EnterPushesFrame(r, Hardware, emulationVector, nativeVector);
    InterruptReturns(r, Hardware, Enter(r, Hardware, emulationVector, nativeVector));
  }

  // ---------- the newer stack instructions ----------

  /** PHD, PEA and their kin let the pointer leave page one while they run and put it back after. */
  function Reforced(e: bool, sp: Word): Word {
    if e then 0x100 + sp % 0x100 else sp
  }

  function PushNew(s: Core, v: Word): Core
    requires Sized(s)
  {
    var below := Dec16(s.sp);
    s.(mem := s.mem[s.sp := v / 0x100][below := v % 0x100], sp := Reforced(s.e, Dec16(below)))
  }

  function PullNew(s: Core): (Word, Core)
    requires Sized(s)
  {
    var lo := Inc16(s.sp);
    var hi := Inc16(lo);
    (WordOf(s.mem[lo], s.mem[hi]), s.(sp := Reforced(s.e, hi)))
  }

  /** A pull undoes a push of the same kind when the push stayed inside page one, or ran in native
      mode; the pointer comes back regardless. */
  lemma NewStackRoundTrip(s: Core, v: Word)
    requires Sized(s) && Narrowed(s)
    ensures PullNew(PushNew(s, v)).1.sp == s.sp
    ensures !s.e || s.sp % 0x100 >= 2 ==> PullNew(PushNew(s, v)).0 == v
  {
    FrameHigh(v);
    if s.e {
      InPageOne(s.sp);
    }
  }

  lemma InPageOne(sp: Word)
    requires sp / 0x100 == 1
    ensures sp == 0x100 + sp % 0x100
    ensures Reforced(true, Dec16(Dec16(sp))) == if sp % 0x100 >= 2 then sp - 2 else sp + 0xFE
    ensures Reforced(true, Inc16(Inc16(Reforced(true, Dec16(Dec16(sp)))))) == sp
  {
  }

  /** Otherwise the pull reads two bytes the push never wrote. */
  lemma NewStackMisses(s: Core, v: Word)
    requires Sized(s) && Narrowed(s) && s.e && s.sp % 0x100 < 2
    ensures PullNew(PushNew(s, v)).0 == WordOf(s.mem[s.sp + 0xFF], s.mem[s.sp + 0x100])
  {
    InPageOne(s.sp);
    var t := PushNew(s, v);
    assert t.sp == s.sp + 0xFE;
    assert t.mem[s.sp + 0xFF] == s.mem[s.sp + 0xFF] && t.mem[s.sp + 0x100] == s.mem[s.sp + 0x100];
    PullReads(t);
  }

  lemma PullReads(s: Core)
    requires Sized(s) && s.sp < 0xFFFE
    ensures PullNew(s).0 == WordOf(s.mem[s.sp + 1], s.mem[s.sp + 2])
  {
  }
}
