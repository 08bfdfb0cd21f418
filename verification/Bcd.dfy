/** Packed-BCD arithmetic: laws for any number of digits, and the kernels at two and four. */
module Bcd {
  import opened Basics

  /** Digits lowest first; the carry is 0 or 1. */
  datatype Sum = Sum(digits: seq<nat>, carry: nat)

  /** The digit a correction leaves, and the carry it passes on. */
  function Fix(d: nat): nat {
    if d >= 10 then (d + 6) % 16 else d
  }

  function Up(d: nat): nat {
    if d >= 10 then 1 else 0
  }

  function FixDown(d: int): nat {
    if d < 0 then (d - 6) % 16 else d
  }

  function NoBorrow(d: int): nat {
    if d < 0 then 0 else 1
  }

  function AddDigits(xs: seq<nat>, ys: seq<nat>, carry: nat): (s: Sum)
    requires |xs| == |ys|
    ensures |s.digits| == |xs| && (carry <= 1 ==> s.carry <= 1)
  {
    if xs == [] then Sum([], carry)
    else
      var d := xs[0] + ys[0] + carry;
      var rest := AddDigits(xs[1..], ys[1..], Up(d));
      Sum([Fix(d)] + rest.digits, rest.carry)
  }

  /** Here the carry means "no borrow", coming in and going out. */
  function SubDigits(xs: seq<nat>, ys: seq<nat>, carry: nat): (s: Sum)
    requires |xs| == |ys|
    ensures |s.digits| == |xs| && (carry <= 1 ==> s.carry <= 1)
  {
    if xs == [] then Sum([], carry)
    else
      var d := xs[0] - ys[0] + carry - 1;
      var rest := SubDigits(xs[1..], ys[1..], NoBorrow(d));
      Sum([FixDown(d)] + rest.digits, rest.carry)
  }

  predicate Decimal(xs: seq<nat>) {
    forall i | 0 <= i < |xs| :: xs[i] <= 9
  }

  function Value10(xs: seq<nat>): nat {
    if xs == [] then 0 else xs[0] + 10 * Value10(xs[1..])
  }

  function Value16(xs: seq<nat>): nat {
    if xs == [] then 0 else xs[0] + 16 * Value16(xs[1..])
  }

  function Pow10(n: nat): nat {
    if n == 0 then 1 else 10 * Pow10(n - 1)
  }

  /** The weight of a carry out of n digits. */
  function CarryOut(n: nat, carry: nat): nat {
    if carry == 0 then 0 else Pow10(n)
  }

  // ---------- laws for any number of digits ----------

  lemma DecimalDigit(x: nat, y: nat, c: nat)
    requires x <= 9 && y <= 9 && c <= 1
    ensures Fix(x + y + c) + 10 * Up(x + y + c) == x + y + c && Fix(x + y + c) <= 9
    ensures FixDown(x - y + c - 1) - 10 * (1 - NoBorrow(x - y + c - 1)) == x - y + c - 1 && FixDown(x - y + c - 1) <= 9
  {
  }

  lemma {:induction false} AddIsDecimal(xs: seq<nat>, ys: seq<nat>, carry: nat)
    requires |xs| == |ys| && carry <= 1 && Decimal(xs) && Decimal(ys)
    ensures var s := AddDigits(xs, ys, carry);
            Decimal(s.digits) && Value10(s.digits) + CarryOut(|xs|, s.carry) == Value10(xs) + Value10(ys) + carry
    decreases |xs|
  {
    if xs != [] {
      DecimalDigit(xs[0], ys[0], carry);
      AddIsDecimal(xs[1..], ys[1..], Up(xs[0] + ys[0] + carry));
    }
  }

  lemma {:induction false} SubIsDecimal(xs: seq<nat>, ys: seq<nat>, carry: nat)
    requires |xs| == |ys| && carry <= 1 && Decimal(xs) && Decimal(ys)
    ensures var s := SubDigits(xs, ys, carry);
            Decimal(s.digits)
            && Value10(s.digits) == Value10(xs) - Value10(ys) - (1 - carry) + CarryOut(|xs|, 1 - s.carry)
    decreases |xs|
  {
    if xs != [] {
      DecimalDigit(xs[0], ys[0], carry);
      SubIsDecimal(xs[1..], ys[1..], NoBorrow(xs[0] - ys[0] + carry - 1));
    }
  }

  /** The flag comes from a parallel binary subtraction, yet it is the digit-wise "no borrow":
      packed numbers compare as their digits do. */
  lemma {:induction false} BinaryCarryIsNoBorrow(xs: seq<nat>, ys: seq<nat>, carry: nat)
    requires |xs| == |ys| && carry <= 1
    requires forall i | 0 <= i < |xs| :: xs[i] < 16 && ys[i] < 16
    ensures SubDigits(xs, ys, carry).carry == 1 <==> Value16(xs) + carry > Value16(ys)
    decreases |xs|
  {
    if xs != [] {
      BinaryCarryIsNoBorrow(xs[1..], ys[1..], NoBorrow(xs[0] - ys[0] + carry - 1));
    }
  }

  lemma DigitUndone(x: nat, y: nat, c: nat)
    requires x <= 9 && y <= 9 && c <= 1
    ensures FixDown(Fix(x + y + c) - y - c) == x
    ensures NoBorrow(Fix(x + y + c) - y - c) == 1 - Up(x + y + c)
  {
    DecimalDigit(x, y, c);
  }

  /** Subtracting what was added, with the complementary carry, gives the first operand back and
      borrows exactly when the addition carried. */
  lemma {:induction false} SubUndoesAdd(xs: seq<nat>, ys: seq<nat>, carry: nat)
    requires |xs| == |ys| && carry <= 1 && Decimal(xs) && Decimal(ys)
    ensures var s := AddDigits(xs, ys, carry);
            SubDigits(s.digits, ys, 1 - carry) == Sum(xs, 1 - s.carry)
    decreases |xs|
  {
    if xs != [] {
      var c := Up(xs[0] + ys[0] + carry);
      var rest := AddDigits(xs[1..], ys[1..], c);
      SubUndoesAdd(xs[1..], ys[1..], c);
      DigitUndone(xs[0], ys[0], carry);
      SubCons(Fix(xs[0] + ys[0] + carry), rest.digits, ys, 1 - carry, xs[0], Sum(xs[1..], 1 - rest.carry));
    }
  }

  lemma SubCons(d: nat, ds: seq<nat>, ys: seq<nat>, carry: nat, x: nat, rest: Sum)
    requires |ys| == |ds| + 1
    requires FixDown(d - ys[0] + carry - 1) == x
    requires SubDigits(ds, ys[1..], NoBorrow(d - ys[0] + carry - 1)) == rest
    ensures SubDigits([d] + ds, ys, carry) == Sum([x] + rest.digits, rest.carry)
  {
    assert ([d] + ds)[1..] == ds;
  }

  // ---------- two and four digits ----------

  function Nibbles2(x: Byte): seq<nat> {
    [x % 16, x / 16]
  }

  function Nibbles4(x: Word): seq<nat> {
    [x % 16, x / 16 % 16, x / 0x100 % 16, x / 0x1000]
  }

  lemma Value16Of2(p: nat, q: nat)
    ensures Value16([p, q]) == p + 16 * q
  {
    assert [p, q][1..] == [q] && [q][1..] == [];
    assert Value16([q]) == q;
  }

  lemma Value16Of4(p: nat, q: nat, r: nat, s: nat)
    ensures Value16([p, q, r, s]) == p + 16 * q + 0x100 * r + 0x1000 * s
  {
    assert [p, q, r, s][1..] == [q, r, s] && [q, r, s][1..] == [r, s];
    Value16Of2(r, s);
    assert Value16([q, r, s]) == q + 16 * Value16([r, s]);
  }

  lemma Add2(x: seq<nat>, y: seq<nat>, c: nat)
    requires |x| == |y| == 2
    ensures var d0 := x[0] + y[0] + c;
            var d1 := x[1] + y[1] + Up(d0);
            AddDigits(x, y, c) == Sum([Fix(d0), Fix(d1)], Up(d1))
  {
    var d0 := x[0] + y[0] + c;
    var d1 := x[1] + y[1] + Up(d0);
    assert AddDigits(x[1..][1..], y[1..][1..], Up(d1)) == Sum([], Up(d1));
    assert AddDigits(x[1..], y[1..], Up(d0)) == Sum([Fix(d1)], Up(d1));
  }

  lemma Add4(x: seq<nat>, y: seq<nat>, c: nat)
    requires |x| == |y| == 4
    ensures var d0 := x[0] + y[0] + c;
            var d1 := x[1] + y[1] + Up(d0);
            var d2 := x[2] + y[2] + Up(d1);
            var d3 := x[3] + y[3] + Up(d2);
            AddDigits(x, y, c) == Sum([Fix(d0), Fix(d1), Fix(d2), Fix(d3)], Up(d3))
  {
    var d0 := x[0] + y[0] + c;
    var d1 := x[1] + y[1] + Up(d0);
    assert x[2..] == x[1..][1..] && y[2..] == y[1..][1..];
    Add2(x[2..], y[2..], Up(d1));
    var top := AddDigits(x[2..], y[2..], Up(d1));
    assert AddDigits(x[1..], y[1..], Up(d0)) == Sum([Fix(d1)] + top.digits, top.carry);
  }

  lemma Sub2(x: seq<nat>, y: seq<nat>, c: nat)
    requires |x| == |y| == 2
    ensures var d0 := x[0] - y[0] + c - 1;
            var d1 := x[1] - y[1] + NoBorrow(d0) - 1;
            SubDigits(x, y, c) == Sum([FixDown(d0), FixDown(d1)], NoBorrow(d1))
  {
    var d0 := x[0] - y[0] + c - 1;
    var d1 := x[1] - y[1] + NoBorrow(d0) - 1;
    assert SubDigits(x[1..][1..], y[1..][1..], NoBorrow(d1)) == Sum([], NoBorrow(d1));
    assert SubDigits(x[1..], y[1..], NoBorrow(d0)) == Sum([FixDown(d1)], NoBorrow(d1));
  }

  lemma Sub4(x: seq<nat>, y: seq<nat>, c: nat)
    requires |x| == |y| == 4
    ensures var d0 := x[0] - y[0] + c - 1;
            var d1 := x[1] - y[1] + NoBorrow(d0) - 1;
            var d2 := x[2] - y[2] + NoBorrow(d1) - 1;
            var d3 := x[3] - y[3] + NoBorrow(d2) - 1;
            SubDigits(x, y, c) == Sum([FixDown(d0), FixDown(d1), FixDown(d2), FixDown(d3)], NoBorrow(d3))
  {
    var d0 := x[0] - y[0] + c - 1;
    var d1 := x[1] - y[1] + NoBorrow(d0) - 1;
    assert x[2..] == x[1..][1..] && y[2..] == y[1..][1..];
    Sub2(x[2..], y[2..], NoBorrow(d1));
    var top := SubDigits(x[2..], y[2..], NoBorrow(d1));
    assert SubDigits(x[1..], y[1..], NoBorrow(d0)) == Sum([FixDown(d1)] + top.digits, top.carry);
  }

  // ---------- running values of the kernels ----------

  /** A byte's low nibble and high nibble added with the low carry, the top not yet corrected. */
  function Half2(x: Byte, o: Byte, carry: nat): nat {
    var d0 := x % 16 + o % 16 + carry;
    0x10 * (x / 16 + o / 16 + Up(d0)) + Fix(d0)
  }

  function HalfDown2(x: Byte, o: Byte, carry: nat): int {
    var d0 := x % 16 - o % 16 + carry - 1;
    0x10 * (x / 16 - o / 16 + NoBorrow(d0) - 1) + FixDown(d0)
  }

  lemma Step0(d: nat)
    requires d <= 31
    ensures (if d >= 10 then (d + 6) % 16 + 0x10 else d) == Fix(d) + 0x10 * Up(d) && Fix(d) < 16
  {
  }

  lemma FixIsDigit(d: nat)
    ensures Fix(d) < 16
  {
  }

  lemma FixDownIsDigit(d: int)
    requires d < 16
    ensures FixDown(d) < 16
  {
  }

  lemma StepDown0(d: int)
    requires -16 <= d < 16
    ensures (if d < 0 then (d - 6) % 16 - 0x10 else d) == FixDown(d) + 0x10 * (NoBorrow(d) - 1) && FixDown(d) < 16
  {
  }

  /** Masking a running value keeps the low part and wraps the digit above it. */
  lemma Mask(k: int, low: nat)
    ensures low < 0x10 ==> (0x10 * k + low) % 0x100 == 0x10 * (k % 16) + low
    ensures low < 0x100 ==> (0x100 * k + low) % 0x1000 == 0x100 * (k % 16) + low
    ensures low < 0x1000 ==> (0x1000 * k + low) % 0x1_0000 == 0x1000 * (k % 16) + low
  {
    MaskByte(k, low);
    MaskThree(k, low);
    MaskWord(k, low);
  }

  lemma MaskByte(k: int, low: nat)
    ensures low < 0x10 ==> (0x10 * k + low) % 0x100 == 0x10 * (k % 16) + low
  {
    assert k == 16 * (k / 16) + k % 16;
  }

  lemma MaskThree(k: int, low: nat)
    ensures low < 0x100 ==> (0x100 * k + low) % 0x1000 == 0x100 * (k % 16) + low
  {
    assert k == 16 * (k / 16) + k % 16;
  }

  lemma MaskWord(k: int, low: nat)
    ensures low < 0x1000 ==> (0x1000 * k + low) % 0x1_0000 == 0x1000 * (k % 16) + low
  {
    assert k == 16 * (k / 16) + k % 16;
  }

  /** The correction at digit 1, 2 or 3 of an addition. */
  lemma Step1(d: nat, low: nat)
    requires d <= 31 && low < 0x10
    ensures var res := 0x10 * d + low;
            (if res >= 0xA0 then (res + 0x60) % 0x100 + 0x100 else res) == 0x100 * Up(d) + (0x10 * Fix(d) + low)
            && (if res >= 0xA0 then res + 0x60 else res) % 0x100 == 0x10 * Fix(d) + low < 0x100
            && ((if res >= 0xA0 then res + 0x60 else res) >= 0x100 <==> Up(d) == 1)
  {
    Mask(d + 6, low);
  }

  lemma Step2(d: nat, low: nat)
    requires d <= 31 && low < 0x100
    ensures var res := 0x100 * d + low;
            (if res >= 0xA00 then (res + 0x600) % 0x1000 + 0x1000 else res) == 0x1000 * Up(d) + (0x100 * Fix(d) + low)
            && 0x100 * Fix(d) + low < 0x1000
  {
    Mask(d + 6, low);
  }

  lemma Step3(d: nat, low: nat)
    requires d <= 31 && low < 0x1000
    ensures var res := 0x1000 * d + low;
            (if res >= 0xA000 then res + 0x6000 else res) % 0x1_0000 == 0x1000 * Fix(d) + low < 0x1_0000
            && ((if res >= 0xA000 then res + 0x6000 else res) >= 0x1_0000 <==> Up(d) == 1)
  {
    Mask(d + 6, low);
  }

  lemma StepDown1(d: int, low: nat)
    requires -16 <= d < 16 && low < 0x10
    ensures var res := 0x10 * d + low;
            (if res < 0 then (res - 0x60) % 0x100 - 0x100 else res)
            == 0x100 * (NoBorrow(d) - 1) + (0x10 * FixDown(d) + low)
            && (if res < 0 then res - 0x60 else res) % 0x100 == 0x10 * FixDown(d) + low < 0x100
  {
    Mask(d - 6, low);
  }

  lemma StepDown2(d: int, low: nat)
    requires -16 <= d < 16 && low < 0x100
    ensures var res := 0x100 * d + low;
            (if res < 0 then (res - 0x600) % 0x1000 - 0x1000 else res)
            == 0x1000 * (NoBorrow(d) - 1) + (0x100 * FixDown(d) + low)
            && 0x100 * FixDown(d) + low < 0x1000
  {
    Mask(d - 6, low);
  }

  lemma StepDown3(d: int, low: nat)
    requires -16 <= d < 16 && low < 0x1000
    ensures var res := 0x1000 * d + low;
            (if res < 0 then res - 0x6000 else res) % 0x1_0000 == 0x1000 * FixDown(d) + low < 0x1_0000
  {
    Mask(d - 6, low);
  }

  /** What a two-digit addition stores, from its half-corrected sum. */
  lemma FinishAdd2(x: Byte, o: Byte, carry: nat)
    requires carry <= 1
    ensures var s := AddDigits(Nibbles2(x), Nibbles2(o), carry);
            var res := if Half2(x, o, carry) >= 0xA0 then Half2(x, o, carry) + 0x60 else Half2(x, o, carry);
            res % 0x100 == Value16(s.digits) && (res >= 0x100 <==> s.carry == 1)
  {
    var d0 := x % 16 + o % 16 + carry;
    var d1 := x / 16 + o / 16 + Up(d0);
    assert Half2(x, o, carry) == 0x10 * d1 + Fix(d0);
    var s := Sum([Fix(d0), Fix(d1)], Up(d1));
    assert AddDigits(Nibbles2(x), Nibbles2(o), carry) == s by {
      Add2(Nibbles2(x), Nibbles2(o), carry);
    }
    assert Value16(s.digits) == 0x10 * Fix(d1) + Fix(d0) by {
      Value16Of2(Fix(d0), Fix(d1));
    }
    Step0(d0);
    Step1(d1, Fix(d0));
  }

  lemma FinishSub2(x: Byte, o: Byte, carry: nat)
    requires carry <= 1
    ensures var s := SubDigits(Nibbles2(x), Nibbles2(o), carry);
            var res := if HalfDown2(x, o, carry) < 0 then HalfDown2(x, o, carry) - 0x60 else HalfDown2(x, o, carry);
            res % 0x100 == Value16(s.digits)
  {
    var d0 := x % 16 - o % 16 + carry - 1;
    var d1 := x / 16 - o / 16 + NoBorrow(d0) - 1;
    StepDown0(d0);
    StepDown1(d1, FixDown(d0));
    Sub2(Nibbles2(x), Nibbles2(o), carry);
    Value16Of2(FixDown(d0), FixDown(d1));
  }

  /** The same at four digits, from the four nibbles of each operand. */
  function Half4(x: seq<nat>, o: seq<nat>, carry: nat): nat
    requires |x| == |o| == 4
  {
    var d0 := x[0] + o[0] + carry;
    var d1 := x[1] + o[1] + Up(d0);
    var d2 := x[2] + o[2] + Up(d1);
    0x1000 * (x[3] + o[3] + Up(d2)) + (0x100 * Fix(d2) + (0x10 * Fix(d1) + Fix(d0)))
  }

  function HalfDown4(x: seq<nat>, o: seq<nat>, carry: nat): int
    requires |x| == |o| == 4
  {
    var d0 := x[0] - o[0] + carry - 1;
    var d1 := x[1] - o[1] + NoBorrow(d0) - 1;
    var d2 := x[2] - o[2] + NoBorrow(d1) - 1;
    0x1000 * (x[3] - o[3] + NoBorrow(d2) - 1) + (0x100 * FixDown(d2) + (0x10 * FixDown(d1) + FixDown(d0)))
  }

  predicate Nibbles(x: seq<nat>) {
    |x| == 4 && forall i | 0 <= i < 4 :: x[i] < 16
  }

  lemma LowDigits(d0: nat, d1: nat, d2: nat)
    ensures 0x100 * Fix(d2) + (0x10 * Fix(d1) + Fix(d0)) < 0x1000
  {
    FixIsDigit(d0);
    FixIsDigit(d1);
    FixIsDigit(d2);
  }

  lemma FinishAdd4(x: seq<nat>, o: seq<nat>, carry: nat)
    requires Nibbles(x) && Nibbles(o) && carry <= 1
    ensures var s := AddDigits(x, o, carry);
            var res := if Half4(x, o, carry) >= 0xA000 then Half4(x, o, carry) + 0x6000 else Half4(x, o, carry);
            res % 0x1_0000 == Value16(s.digits) && (res >= 0x1_0000 <==> s.carry == 1)
  {
    var d0 := x[0] + o[0] + carry;
    var d1 := x[1] + o[1] + Up(d0);
    var d2 := x[2] + o[2] + Up(d1);
    var d3 := x[3] + o[3] + Up(d2);
    var low := 0x100 * Fix(d2) + (0x10 * Fix(d1) + Fix(d0));
    assert Half4(x, o, carry) == 0x1000 * d3 + low;
    var s := Sum([Fix(d0), Fix(d1), Fix(d2), Fix(d3)], Up(d3));
    assert AddDigits(x, o, carry) == s by {
      Add4(x, o, carry);
    }
    assert Value16(s.digits) == 0x1000 * Fix(d3) + low by {
      Value16Of4(Fix(d0), Fix(d1), Fix(d2), Fix(d3));
    }
    LowDigits(d0, d1, d2);
    Step3(d3, low);
  }

  lemma FinishSub4(x: seq<nat>, o: seq<nat>, carry: nat)
    requires Nibbles(x) && Nibbles(o) && carry <= 1
    ensures var s := SubDigits(x, o, carry);
            var res := if HalfDown4(x, o, carry) < 0 then HalfDown4(x, o, carry) - 0x6000 else HalfDown4(x, o, carry);
            res % 0x1_0000 == Value16(s.digits)
  {
    var d0 := x[0] - o[0] + carry - 1;
    var d1 := x[1] - o[1] + NoBorrow(d0) - 1;
    var d2 := x[2] - o[2] + NoBorrow(d1) - 1;
    var d3 := x[3] - o[3] + NoBorrow(d2) - 1;
    FixDownIsDigit(d0);
    FixDownIsDigit(d1);
    FixDownIsDigit(d2);
    StepDown3(d3, 0x100 * FixDown(d2) + (0x10 * FixDown(d1) + FixDown(d0)));
    Sub4(x, o, carry);
    Value16Of4(FixDown(d0), FixDown(d1), FixDown(d2), FixDown(d3));
  }

  lemma BinaryCarry2(x: Byte, y: Byte, carry: nat)
    requires carry <= 1
    ensures SubDigits(Nibbles2(x), Nibbles2(y), carry).carry == 1 <==> x + carry > y
  {
    BinaryCarryIsNoBorrow(Nibbles2(x), Nibbles2(y), carry);
    Value16Of2(x % 16, x / 16);
    Value16Of2(y % 16, y / 16);
  }

  lemma BinaryCarry4(x: Word, y: Word, carry: nat)
    requires carry <= 1
    ensures SubDigits(Nibbles4(x), Nibbles4(y), carry).carry == 1 <==> x + carry > y
  {
    BinaryCarryIsNoBorrow(Nibbles4(x), Nibbles4(y), carry);
    PackNibbles4(x);
    PackNibbles4(y);
  }

  lemma PackNibbles4(x: Word)
    ensures Value16(Nibbles4(x)) == x && Nibbles(Nibbles4(x))
  {
    Value16Of4(x % 16, x / 16 % 16, x / 0x100 % 16, x / 0x1000);
    assert x / 0x100 / 16 == x / 0x1000;
    assert x / 16 / 16 == x / 0x100;
  }

  lemma Unpack2(ds: seq<nat>)
    requires |ds| == 2 && ds[0] < 16 && ds[1] < 16
    ensures Value16(ds) < 0x100 && Nibbles2(Value16(ds)) == ds
  {
    assert ds == [ds[0], ds[1]];
    Value16Of2(ds[0], ds[1]);
  }

  lemma Unpack4(ds: seq<nat>)
    requires Nibbles(ds)
    ensures Value16(ds) < 0x1_0000 && Nibbles4(Value16(ds)) == ds
  {
    var p, q, r, t := ds[0], ds[1], ds[2], ds[3];
    assert ds == [p, q, r, t];
    assert Value16(ds) == p + 16 * q + 0x100 * r + 0x1000 * t by {
      Value16Of4(p, q, r, t);
    }
    DigitsOf(p, q, r, t);
  }

  lemma DigitsOf(p: nat, q: nat, r: nat, t: nat)
    requires p < 16 && q < 16 && r < 16 && t < 16
    ensures var v := p + 16 * q + 0x100 * r + 0x1000 * t;
            v < 0x1_0000 && v % 16 == p && v / 16 % 16 == q && v / 0x100 % 16 == r && v / 0x1000 == t
  {
    var v := p + 16 * q + 0x100 * r + 0x1000 * t;
    assert v / 0x10 == q + 0x10 * r + 0x100 * t;
    assert v / 0x100 == r + 0x10 * t;
  }

  lemma Pow10Of4()
    ensures Pow10(2) == 100 && Pow10(4) == 10000
  {
    assert Pow10(2) == 100;
    assert Pow10(3) == 1000;
  }

  /** What the byte-wide addition stores, read as a decimal number: the sum with its hundreds in
      the carry; subtracting again gives back the first operand. */
  lemma ByteSumIsDecimal(x: Byte, o: Byte, carry: nat)
    requires carry <= 1 && Decimal(Nibbles2(x)) && Decimal(Nibbles2(o))
    ensures var s := AddDigits(Nibbles2(x), Nibbles2(o), carry);
            var r := Value16(s.digits);
            && r < 0x100 && Decimal(Nibbles2(r))
            && Value10(Nibbles2(r)) + 100 * s.carry == Value10(Nibbles2(x)) + Value10(Nibbles2(o)) + carry
            && SubDigits(Nibbles2(r), Nibbles2(o), 1 - carry) == Sum(Nibbles2(x), 1 - s.carry)
  {
    var s := AddDigits(Nibbles2(x), Nibbles2(o), carry);
    AddIsDecimal(Nibbles2(x), Nibbles2(o), carry);
    SubUndoesAdd(Nibbles2(x), Nibbles2(o), carry);
    Pow10Of4();
    assert Value16(s.digits) < 0x100 && Nibbles2(Value16(s.digits)) == s.digits by {
      Unpack2(s.digits);
    }
  }

  /** What the byte-wide subtraction stores: the difference with its borrow. */
  lemma ByteDifferenceIsDecimal(x: Byte, o: Byte, carry: nat)
    requires carry <= 1 && Decimal(Nibbles2(x)) && Decimal(Nibbles2(o))
    ensures var s := SubDigits(Nibbles2(x), Nibbles2(o), carry);
            var r := Value16(s.digits);
            && r < 0x100 && Decimal(Nibbles2(r))
            && Value10(Nibbles2(r)) == Value10(Nibbles2(x)) - Value10(Nibbles2(o)) - (1 - carry) + 100 * (1 - s.carry)
  {
    var s := SubDigits(Nibbles2(x), Nibbles2(o), carry);
    SubIsDecimal(Nibbles2(x), Nibbles2(o), carry);
    Pow10Of4();
    assert Value16(s.digits) < 0x100 && Nibbles2(Value16(s.digits)) == s.digits by {
      Unpack2(s.digits);
    }
  }

  /** The same for the 16-bit kernels. */
  lemma WordSumIsDecimal(x: Word, o: Word, carry: nat)
    requires carry <= 1 && Decimal(Nibbles4(x)) && Decimal(Nibbles4(o))
    ensures var s := AddDigits(Nibbles4(x), Nibbles4(o), carry);
            var r := Value16(s.digits);
            && r < 0x1_0000 && Decimal(Nibbles4(r))
            && Value10(Nibbles4(r)) + 10000 * s.carry == Value10(Nibbles4(x)) + Value10(Nibbles4(o)) + carry
            && SubDigits(Nibbles4(r), Nibbles4(o), 1 - carry) == Sum(Nibbles4(x), 1 - s.carry)
  {
    var s := AddDigits(Nibbles4(x), Nibbles4(o), carry);
    AddIsDecimal(Nibbles4(x), Nibbles4(o), carry);
    SubUndoesAdd(Nibbles4(x), Nibbles4(o), carry);
    Pow10Of4();
    assert Value16(s.digits) < 0x1_0000 && Nibbles4(Value16(s.digits)) == s.digits by {
      Unpack4(s.digits);
    }
  }

  lemma WordDifferenceIsDecimal(x: Word, o: Word, carry: nat)
    requires carry <= 1 && Decimal(Nibbles4(x)) && Decimal(Nibbles4(o))
    ensures var s := SubDigits(Nibbles4(x), Nibbles4(o), carry);
            var r := Value16(s.digits);
            && r < 0x1_0000 && Decimal(Nibbles4(r))
            && Value10(Nibbles4(r)) == Value10(Nibbles4(x)) - Value10(Nibbles4(o)) - (1 - carry) + 10000 * (1 - s.carry)
  {
    var s := SubDigits(Nibbles4(x), Nibbles4(o), carry);
    SubIsDecimal(Nibbles4(x), Nibbles4(o), carry);
    Pow10Of4();
    assert Value16(s.digits) < 0x1_0000 && Nibbles4(Value16(s.digits)) == s.digits by {
      Unpack4(s.digits);
    }
  }

  /** The number two or four decimal digits spell. */
  function Number2(x: Byte): nat {
    Value10(Nibbles2(x))
  }

  function Number4(x: Word): nat {
    Value10(Nibbles4(x))
  }

  /** For decimal operands the byte r with carry c is their decimal sum. */
  predicate Added2(x: Byte, o: Byte, carry: nat, r: Byte, c: bool) {
    Decimal(Nibbles2(x)) && Decimal(Nibbles2(o)) ==>
      Decimal(Nibbles2(r)) && Number2(r) + (if c then 100 else 0) == Number2(x) + Number2(o) + carry
  }

  /** For decimal operands the byte r is their decimal difference, with no borrow when c is set. */
  predicate Subtracted2(x: Byte, o: Byte, carry: nat, r: Byte, c: bool) {
    Decimal(Nibbles2(x)) && Decimal(Nibbles2(o)) ==>
      Decimal(Nibbles2(r)) && Number2(r) == Number2(x) - Number2(o) + carry - 1 + if c then 0 else 100
  }

  predicate Added4(x: Word, o: Word, carry: nat, r: Word, c: bool) {
    Decimal(Nibbles4(x)) && Decimal(Nibbles4(o)) ==>
      Decimal(Nibbles4(r)) && Number4(r) + (if c then 10000 else 0) == Number4(x) + Number4(o) + carry
  }

  predicate Subtracted4(x: Word, o: Word, carry: nat, r: Word, c: bool) {
    Decimal(Nibbles4(x)) && Decimal(Nibbles4(o)) ==>
      Decimal(Nibbles4(r)) && Number4(r) == Number4(x) - Number4(o) + carry - 1 + if c then 0 else 10000
  }

  lemma StoredSum2(x: Byte, o: Byte, carry: nat, r: Byte, c: bool)
    requires carry <= 1
    requires var s := AddDigits(Nibbles2(x), Nibbles2(o), carry); r == Value16(s.digits) && c == (s.carry == 1)
    ensures Added2(x, o, carry, r, c)
  {
    if Decimal(Nibbles2(x)) && Decimal(Nibbles2(o)) {
      ByteSumIsDecimal(x, o, carry);
    }
  }

  lemma StoredDifference2(x: Byte, o: Byte, carry: nat, r: Byte, c: bool)
    requires carry <= 1
    requires var s := SubDigits(Nibbles2(x), Nibbles2(o), carry); r == Value16(s.digits) && c == (s.carry == 1)
    ensures Subtracted2(x, o, carry, r, c)
  {
    if Decimal(Nibbles2(x)) && Decimal(Nibbles2(o)) {
      ByteDifferenceIsDecimal(x, o, carry);
    }
  }

  lemma StoredSum4(x: Word, o: Word, carry: nat, r: Word, c: bool)
    requires carry <= 1
    requires var s := AddDigits(Nibbles4(x), Nibbles4(o), carry); r == Value16(s.digits) && c == (s.carry == 1)
    ensures Added4(x, o, carry, r, c)
  {
    if Decimal(Nibbles4(x)) && Decimal(Nibbles4(o)) {
      WordSumIsDecimal(x, o, carry);
    }
  }

  lemma StoredDifference4(x: Word, o: Word, carry: nat, r: Word, c: bool)
    requires carry <= 1
    requires var s := SubDigits(Nibbles4(x), Nibbles4(o), carry); r == Value16(s.digits) && c == (s.carry == 1)
    ensures Subtracted4(x, o, carry, r, c)
  {
    if Decimal(Nibbles4(x)) && Decimal(Nibbles4(o)) {
      WordDifferenceIsDecimal(x, o, carry);
    }
  }

  // ---------- the kernels ----------

  predicate Neg8(x: int) {
    x % 0x100 >= 0x80
  }

  predicate Neg16(x: int) {
    x % 0x1_0000 >= 0x8000
  }

  /** The accumulator and the flags the decimal kernels touch; `b` is its high byte. */
  class Alu {
    var a: Byte
    var b: Byte
    var c: bool
    var z: bool
    var v: bool
    var n: bool

    function A16(): Word
      reads this
    {
      WordOf(a, b)
    }

    /** The low nibble is corrected, its carry enters the high one. */
    method AddNibbles(operand: Byte, carry: nat) returns (ah: nat)
      requires carry <= 1
      ensures ah == Half2(a, operand, carry)
    {
      var al := a % 16 + operand % 16 + carry;
      Step0(al);
      if al >= 0x0A {
        al := (al + 0x06) % 16 + 0x10;
      }
      ah := a / 16 * 16 + operand / 16 * 16 + al;
    }

    method SubNibbles(operand: Byte, carry: nat) returns (res: int)
      requires carry <= 1
      ensures res == HalfDown2(a, operand, carry)
    {
      var al: int := a % 16 - operand % 16 + carry - 1;
      StepDown0(al);
      if al < 0 {
        al := (al - 0x06) % 16 - 0x10;
      }
      res := a / 16 * 16 - operand / 16 * 16 + al;
    }

    /** NMOS: C is decimal, Z is that of the binary sum, N and V come from the half-corrected sum. */
    method AdcDecimal(operand: Byte, carry: nat)
      requires carry <= 1
      modifies this
      ensures var s := AddDigits(Nibbles2(old(a)), Nibbles2(operand), carry);
              a == Value16(s.digits) && c == (s.carry == 1) && b == old(b)
      ensures Added2(old(a), operand, carry, a, c)
      ensures z == ((old(a) + operand + carry) % 0x100 == 0)
      ensures var half := Half2(old(a), operand, carry);
              n == Neg8(half) && v == (Neg8(old(a)) != Neg8(half) && Neg8(old(a)) == Neg8(operand))
    {
      var ah := AddNibbles(operand, carry);
      SumFlags(operand, carry, ah);
      StoreSum(operand, carry, ah);
    }

    /** The last correction of an addition. */
    method StoreSum(operand: Byte, carry: nat, half: nat)
      requires carry <= 1 && half == Half2(a, operand, carry)
      modifies this`a, this`c
      ensures var s := AddDigits(Nibbles2(old(a)), Nibbles2(operand), carry);
              a == Value16(s.digits) && c == (s.carry == 1)
      ensures Added2(old(a), operand, carry, a, c)
    {
      FinishAdd2(a, operand, carry);
      var res := half;
      if res >= 0xA0 {
        res := res + 0x60;
      }
      c := res >= 0x100;
      a := res % 0x100;
      StoredSum2(old(a), operand, carry, a, c);
    }

    method SumFlags(operand: Byte, carry: nat, ah: nat)
      modifies this`n, this`v, this`z
      ensures z == ((a + operand + carry) % 0x100 == 0)
      ensures n == Neg8(ah) && v == (Neg8(a) != Neg8(ah) && Neg8(a) == Neg8(operand))
    {
      n := Neg8(ah);
      v := Neg8(a) != Neg8(ah) && Neg8(a) == Neg8(operand);
      var bin := (a as int) + operand + carry;
      z := bin % 0x100 == 0;
    }

    /** NMOS: all flags come from the parallel binary subtraction. */
    method SbcDecimal(operand: Byte, carry: nat)
      requires carry <= 1
      modifies this
      ensures var s := SubDigits(Nibbles2(old(a)), Nibbles2(operand), carry);
              a == Value16(s.digits) && c == (s.carry == 1) && b == old(b)
      ensures Subtracted2(old(a), operand, carry, a, c)
      ensures var sum := old(a) + (0xFF - operand) + carry;
              z == (sum % 0x100 == 0) && n == Neg8(sum)
              && v == (Neg8(old(a)) == Neg8(0xFF - operand) && Neg8(old(a)) != Neg8(sum))
    {
      var res := SubNibbles(operand, carry);
      BorrowFlags(operand, carry);
      StoreDifference(operand, carry, res);
    }

    /** All flags of the binary subtraction. */
    method BorrowFlags(operand: Byte, carry: nat)
      requires carry <= 1
      modifies this`c, this`v, this`n, this`z
      ensures var sum := a + (0xFF - operand) + carry;
              z == (sum % 0x100 == 0) && n == Neg8(sum) && c == (a + carry > operand)
              && v == (Neg8(a) == Neg8(0xFF - operand) && Neg8(a) != Neg8(sum))
    {
      var w: int := 0xFF - operand;
      var sum := a + w + carry;
      c := sum > 0xFF;
      v := Neg8(a) == Neg8(w) && Neg8(a) != Neg8(sum);
      n := Neg8(sum);
      z := sum % 0x100 == 0;
    }

    /** The last correction of a subtraction. */
    method StoreDifference(operand: Byte, carry: nat, half: int)
      requires carry <= 1 && half == HalfDown2(a, operand, carry) && c == (a + carry > operand)
      modifies this`a
      ensures var s := SubDigits(Nibbles2(old(a)), Nibbles2(operand), carry);
              a == Value16(s.digits) && c == (s.carry == 1)
      ensures Subtracted2(old(a), operand, carry, a, c)
    {
      FinishSub2(a, operand, carry);
      BinaryCarry2(a, operand, carry);
      var res := half;
      if res < 0 {
        res := res - 0x60;
      }
      a := res % 0x100;
      StoredDifference2(old(a), operand, carry, a, c);
    }

    /** 65816, 8-bit accumulator: N and Z are those of the decimal result. */
    method AdcDecimalNarrow(operand: Byte, carry: nat)
      requires carry <= 1
      modifies this
      ensures var s := AddDigits(Nibbles2(old(a)), Nibbles2(operand), carry);
              a == Value16(s.digits) && c == (s.carry == 1) && b == old(b)
      ensures Added2(old(a), operand, carry, a, c)
      ensures z == (a == 0) && n == Neg8(a)
      ensures v == (Neg8(old(a)) != Neg8(Half2(old(a), operand, carry)) && Neg8(old(a)) == Neg8(operand))
    {
      var res := AddNibbles(operand, carry);
      v := Neg8(a) != Neg8(res) && Neg8(a) == Neg8(operand);
      StoreSum(operand, carry, res);
      NarrowFlags();
    }

    method NarrowFlags()
      modifies this`z, this`n
      ensures z == (a == 0) && n == Neg8(a)
    {
      z, n := a == 0, Neg8(a);
    }

    /** 65816, 8-bit accumulator: C and V are those of the binary subtraction. */
    method SbcDecimalNarrow(operand: Byte, carry: nat)
      requires carry <= 1
      modifies this
      ensures var s := SubDigits(Nibbles2(old(a)), Nibbles2(operand), carry);
              a == Value16(s.digits) && c == (s.carry == 1) && b == old(b)
      ensures Subtracted2(old(a), operand, carry, a, c)
      ensures z == (a == 0) && n == Neg8(a)
      ensures var sum := old(a) + (0xFF - operand) + carry;
              v == (Neg8(old(a)) == Neg8(0xFF - operand) && Neg8(old(a)) != Neg8(sum))
    {
      var res := SubNibbles(operand, carry);
      BorrowFlags(operand, carry);
      StoreDifference(operand, carry, res);
      NarrowFlags();
    }

    /** 65816, 16-bit accumulator: four corrections, the last one without a mask. */
    method AdcDecimalWide(operand: Word, carry: nat)
      requires carry <= 1
      modifies this
      ensures var s := AddDigits(Nibbles4(old(A16())), Nibbles4(operand), carry);
              A16() == Value16(s.digits) && c == (s.carry == 1)
      ensures Added4(old(A16()), operand, carry, A16(), c)
      ensures z == (A16() == 0) && n == Neg16(A16())
      ensures var half := Half4(Nibbles4(old(A16())), Nibbles4(operand), carry);
              v == (Neg16(old(A16())) != Neg16(half) && Neg16(old(A16())) == Neg16(operand))
    {
      var x, o := Nibbles4(A16()), Nibbles4(operand);
      PackNibbles4(A16());
      PackNibbles4(operand);
      var res := AddWideNibbles(x, o, carry);
      FinishAdd4(x, o, carry);
      v := Neg16(A16()) != Neg16(res) && Neg16(A16()) == Neg16(operand);
      if res >= 0xA000 {
        res := res + 0x6000;
      }
      c := res >= 0x1_0000;
      StoreA16(res % 0x1_0000);
      StoredSum4(old(A16()), operand, carry, A16(), c);
    }

    method SbcDecimalWide(operand: Word, carry: nat)
      requires carry <= 1
      modifies this
      ensures var s := SubDigits(Nibbles4(old(A16())), Nibbles4(operand), carry);
              A16() == Value16(s.digits) && c == (s.carry == 1)
      ensures Subtracted4(old(A16()), operand, carry, A16(), c)
      ensures z == (A16() == 0) && n == Neg16(A16())
      ensures var sum := old(A16()) + (0xFFFF - operand) + carry;
              v == (Neg16(old(A16())) == Neg16(0xFFFF - operand) && Neg16(old(A16())) != Neg16(sum))
    {
      var x, o := Nibbles4(A16()), Nibbles4(operand);
      PackNibbles4(A16());
      PackNibbles4(operand);
      var al := SubWideNibbles(x, o, carry);
      FinishSub4(x, o, carry);
      BinaryCarry4(A16(), operand, carry);
      if al < 0 {
        al := al - 0x6000;
      }
      WideBorrowFlags(operand, carry);
      StoreA16(al % 0x1_0000);
      StoredDifference4(old(A16()), operand, carry, A16(), c);
    }

    method WideBorrowFlags(operand: Word, carry: nat)
      modifies this`c, this`v
      ensures var sum := A16() + (0xFFFF - operand) + carry;
              c == (sum > 0xFFFF) && v == (Neg16(A16()) == Neg16(0xFFFF - operand) && Neg16(A16()) != Neg16(sum))
    {
      var w: int := 0xFFFF - operand;
      var sum := A16() + w + carry;
      c := sum > 0xFFFF;
      v := Neg16(A16()) == Neg16(w) && Neg16(A16()) != Neg16(sum);
    }

    method StoreA16(r: Word)
      modifies this`a, this`b, this`z, this`n
      ensures A16() == r && z == (r == 0) && n == Neg16(r)
    {
      a, b := r % 0x100, r / 0x100;
      z, n := r == 0, Neg16(r);
    }
  }

  /** The first three corrections of the 16-bit addition; x and o are the operands' nibbles. */
  method AddWideNibbles(x: seq<nat>, o: seq<nat>, carry: nat) returns (res: nat)
    requires Nibbles(x) && Nibbles(o) && carry <= 1
    ensures res == Half4(x, o, carry)
  {
    res := x[0] + o[0] + carry;
    ghost var d0 := res;
    Step0(d0);
    if res >= 0x0A {
      res := (res + 0x06) % 16 + 0x10;
    }
    res := x[1] * 0x10 + o[1] * 0x10 + res;
    ghost var d1 := x[1] + o[1] + Up(d0);
    Step1(d1, Fix(d0));
    if res >= 0xA0 {
      res := (res + 0x60) % 0x100 + 0x100;
    }
    res := x[2] * 0x100 + o[2] * 0x100 + res;
    ghost var d2 := x[2] + o[2] + Up(d1);
    Step2(d2, 0x10 * Fix(d1) + Fix(d0));
    if res >= 0xA00 {
      res := (res + 0x600) % 0x1000 + 0x1000;
    }
    res := x[3] * 0x1000 + o[3] * 0x1000 + res;
  }

  method SubWideNibbles(x: seq<nat>, o: seq<nat>, carry: nat) returns (al: int)
    requires Nibbles(x) && Nibbles(o) && carry <= 1
    ensures al == HalfDown4(x, o, carry)
  {
    al := x[0] - o[0] + carry - 1;
    ghost var d0 := al;
    StepDown0(d0);
    if al < 0 {
      al := (al - 0x06) % 16 - 0x10;
    }
    al := x[1] * 0x10 - o[1] * 0x10 + al;
    ghost var d1 := x[1] - o[1] + NoBorrow(d0) - 1;
    StepDown1(d1, FixDown(d0));
    if al < 0 {
      al := (al - 0x60) % 0x100 - 0x100;
    }
    al := x[2] * 0x100 - o[2] * 0x100 + al;
    ghost var d2 := x[2] - o[2] + NoBorrow(d1) - 1;
    StepDown2(d2, 0x10 * FixDown(d1) + FixDown(d0));
    if al < 0 {
      al := (al - 0x600) % 0x1000 - 0x1000;
    }
    al := x[3] * 0x1000 - o[3] * 0x1000 + al;
  }
}
