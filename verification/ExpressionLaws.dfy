/** What each operator and name of a condition means, in terms of the values of its operands. */
module ExpressionLaws {
  import opened Basics
  import opened Expressions
  import opened ExpressionProofs

  /** The value of `l op r`. */
  function Value(op: BinOp, l: Expr, r: Expr, scope: Scope, c: Context): U32
    requires Named(l, scope) && Named(r, scope)
  {
    Eval(Bin(op, l, r), scope, c)
  }

  lemma ValueApplies(op: BinOp, l: Expr, r: Expr, scope: Scope, c: Context)
    requires Named(l, scope) && Named(r, scope)
    ensures Named(Bin(op, l, r), scope)
    ensures Value(op, l, r, scope, c) == Apply(op, Eval(l, scope, c), Eval(r, scope, c))
  {
  }

  // ---------- arithmetic modulo 2^32 ----------

  lemma SumsWrap(a: U32, b: U32)
    ensures Apply(Add, a, b) == if a + b < MAX32 then a + b else a + b - MAX32
    ensures Apply(Sub, a, b) == if a >= b then a - b else a - b + MAX32
  {
  }

  /** Sums and differences wrap once. */
  lemma AddAndSub(l: Expr, r: Expr, scope: Scope, c: Context)
    requires Named(l, scope) && Named(r, scope)
    ensures var a, b := Eval(l, scope, c), Eval(r, scope, c);
            && Value(Add, l, r, scope, c) == (if a + b < MAX32 then a + b else a + b - MAX32)
            && Value(Sub, l, r, scope, c) == (if a >= b then a - b else a - b + MAX32)
  {
    ValueApplies(Add, l, r, scope, c);
    ValueApplies(Sub, l, r, scope, c);
    SumsWrap(Eval(l, scope, c), Eval(r, scope, c));
  }

  /** Each undoes the other. */
  lemma SubUndoesAdd(l: Expr, r: Expr, scope: Scope, c: Context)
    requires Named(l, scope) && Named(r, scope)
    ensures Value(Sub, Bin(Add, l, r), r, scope, c) == Eval(l, scope, c)
    ensures Value(Add, Bin(Sub, l, r), r, scope, c) == Eval(l, scope, c)
  {
    AddAndSub(l, r, scope, c);
    AddAndSub(Bin(Add, l, r), r, scope, c);
    AddAndSub(Bin(Sub, l, r), r, scope, c);
  }

  /** A product is the integers' product, less a multiple of 2^32 when that does not fit. */
  lemma MulWraps(l: Expr, r: Expr, scope: Scope, c: Context) returns (k: nat)
    requires Named(l, scope) && Named(r, scope)
    ensures Eval(l, scope, c) * Eval(r, scope, c) == MAX32 * k + Value(Mul, l, r, scope, c)
    ensures Eval(l, scope, c) * Eval(r, scope, c) < MAX32 ==> k == 0
  {
    ValueApplies(Mul, l, r, scope, c);
    k := Multiplied(Eval(l, scope, c), Eval(r, scope, c));
  }

  lemma Multiplied(a: U32, b: U32) returns (k: nat)
    ensures a * b == MAX32 * k + Apply(Mul, a, b) && (a * b < MAX32 ==> k == 0)
  {
    var p: nat := a * b;
    k := p / MAX32;
  }

  lemma Divided(a: U32, b: U32) returns (rem: nat)
    ensures if b == 0 then Apply(Div, a, b) == 0 else a == b * Apply(Div, a, b) + rem && rem < b
  {
    rem := if b == 0 then 0 else a % b;
    assert b > 0 ==> a == b * (a / b) + a % b;
  }

  /** A quotient leaves a remainder below the divisor; dividing by zero gives zero. */
  lemma DivDivides(l: Expr, r: Expr, scope: Scope, c: Context) returns (rem: nat)
    requires Named(l, scope) && Named(r, scope)
    ensures var a, b, q := Eval(l, scope, c), Eval(r, scope, c), Value(Div, l, r, scope, c);
            if b == 0 then q == 0 else a == b * q + rem && rem < b
  {
    ValueApplies(Div, l, r, scope, c);
    rem := Divided(Eval(l, scope, c), Eval(r, scope, c));
  }

  // ---------- bits ----------

  lemma {:induction false} BitBelow(v: nat, m: nat, i: nat)
    requires i < m && v >= Pow2(m)
    ensures BitAt(v - Pow2(m), i) == BitAt(v, i)
    decreases i
  {
    var p := Pow2(m - 1);
    assert Pow2(m) == 2 * p;
    if i > 0 {
      assert (v - 2 * p) / 2 == v / 2 - p;
      BitBelow(v / 2, m - 1, i - 1);
    }
  }

  lemma DoubledBits(l: nat, i: nat)
    ensures BitAt(2 * l, i) == (i > 0 && BitAt(l, i - 1))
  {
    assert 2 * l / 2 == l;
  }

  lemma DoubleMovesBits(l: U32, i: nat)
    requires i < 32
    ensures BitAt(Wrap32(2 * l), i) == (i > 0 && BitAt(l, i - 1))
  {
    DoubledBits(l, i);
    assert Wrap32(2 * l) == if 2 * l < MAX32 then 2 * l else 2 * l - MAX32;
    if 2 * l >= MAX32 {
      Pow2Of32();
      BitBelow(2 * l, 32, i);
    }
  }

  lemma {:induction false} ShiftLeftMovesBits(l: U32, n: nat, i: nat)
    requires i < 32
    ensures BitAt(ShiftLeft(l, n), i) == (i >= n && BitAt(l, i - n))
    decreases n
  {
    if n > 0 {
      ShiftLeftMovesBits(Wrap32(2 * l), n - 1, i);
      if i >= n - 1 {
        DoubleMovesBits(l, i - (n - 1));
      }
    }
  }

  lemma {:induction false} ShiftRightMovesBits(l: U32, n: nat, i: nat)
    ensures BitAt(ShiftRight(l, n), i) == BitAt(l, i + n)
    decreases n
  {
    if n > 0 {
      ShiftRightMovesBits(l / 2, n - 1, i);
    }
  }

  lemma {:induction false} NoHighBits(v: nat, n: nat, i: nat)
    requires v < Pow2(n) && i >= n
    ensures !BitAt(v, i)
    decreases i
  {
    if i > 0 {
      NoHighBits(v / 2, if n > 0 then n - 1 else 0, i - 1);
    }
  }

  /** Bits determine a number. */
  lemma {:induction false} BitsDetermine(v: nat, w: nat, n: nat)
    requires v < Pow2(n) && w < Pow2(n) && forall i | 0 <= i < n :: BitAt(v, i) == BitAt(w, i)
    ensures v == w
    decreases n
  {
    if n > 0 {
      assert BitAt(v, 0) == BitAt(w, 0);
      forall i | 0 <= i < n - 1 ensures BitAt(v / 2, i) == BitAt(w / 2, i) {
        assert BitAt(v, i + 1) == BitAt(w, i + 1);
      }
      BitsDetermine(v / 2, w / 2, n - 1);
    }
  }

  lemma BitsOfApply(a: U32, b: U32, i: nat)
    requires i < 32
    ensures BitAt(Apply(And, a, b), i) == (BitAt(a, i) && BitAt(b, i))
    ensures BitAt(Apply(Or, a, b), i) == (BitAt(a, i) || BitAt(b, i))
    ensures BitAt(Apply(Xor, a, b), i) == (BitAt(a, i) != BitAt(b, i))
  {
    BitwiseWorksPerBit(LAnd, a, b, 32, i);
    BitwiseWorksPerBit(LOr, a, b, 32, i);
    BitwiseWorksPerBit(LXor, a, b, 32, i);
  }

  lemma BitsOfShift(a: U32, b: U32, i: nat)
    requires i < 32
    ensures BitAt(Apply(Shl, a, b), i) == (i >= b % 32 && BitAt(a, i - b % 32))
    ensures BitAt(Apply(Shr, a, b), i) == (i + b % 32 < 32 && BitAt(a, i + b % 32))
  {
    var n := b % 32;
    ShiftLeftMovesBits(a, n, i);
    ShiftRightMovesBits(a, n, i);
    if i + n >= 32 {
      Pow2Of32();
      NoHighBits(a, 32, i + n);
    }
  }

  /** The bitwise operators work on each of the 32 bits by itself. */
  lemma BitwiseOperators(l: Expr, r: Expr, scope: Scope, c: Context, i: nat)
    requires Named(l, scope) && Named(r, scope) && i < 32
    ensures BitAt(Value(And, l, r, scope, c), i) == (BitAt(Eval(l, scope, c), i) && BitAt(Eval(r, scope, c), i))
    ensures BitAt(Value(Or, l, r, scope, c), i) == (BitAt(Eval(l, scope, c), i) || BitAt(Eval(r, scope, c), i))
    ensures BitAt(Value(Xor, l, r, scope, c), i) == (BitAt(Eval(l, scope, c), i) != BitAt(Eval(r, scope, c), i))
  {
    ValueApplies(And, l, r, scope, c);
    ValueApplies(Or, l, r, scope, c);
    ValueApplies(Xor, l, r, scope, c);
    BitsOfApply(Eval(l, scope, c), Eval(r, scope, c), i);
  }

  /** Shifts move each bit by the low five bits of the count; what leaves the 32 bits is gone. */
  lemma ShiftOperators(l: Expr, r: Expr, scope: Scope, c: Context, i: nat)
    requires Named(l, scope) && Named(r, scope) && i < 32
    ensures var a, n := Eval(l, scope, c), Eval(r, scope, c) % 32;
            && BitAt(Value(Shl, l, r, scope, c), i) == (i >= n && BitAt(a, i - n))
            && BitAt(Value(Shr, l, r, scope, c), i) == (i + n < 32 && BitAt(a, i + n))
  {
    ValueApplies(Shl, l, r, scope, c);
    ValueApplies(Shr, l, r, scope, c);
    BitsOfShift(Eval(l, scope, c), Eval(r, scope, c), i);
  }

  // ---------- comparisons and logic ----------

  /** Comparisons are unsigned and give 0 or 1: exactly one of `<`, `==` and `>` holds, and each of
      `>=`, `!=` and `<=` is the opposite of one of them. */
  lemma Trichotomy(l: Expr, r: Expr, scope: Scope, c: Context)
    requires Named(l, scope) && Named(r, scope)
    ensures Value(Lt, l, r, scope, c) + Value(Eq, l, r, scope, c) + Value(Gt, l, r, scope, c) == 1
    ensures Value(Ge, l, r, scope, c) == 1 - Value(Lt, l, r, scope, c)
    ensures Value(Ne, l, r, scope, c) == 1 - Value(Eq, l, r, scope, c)
    ensures Value(Le, l, r, scope, c) == 1 - Value(Gt, l, r, scope, c)
    ensures Value(Gt, l, r, scope, c) == Value(Lt, r, l, scope, c)
    ensures Value(Lt, l, r, scope, c) == 1 <==> Eval(l, scope, c) < Eval(r, scope, c)
    ensures Value(Eq, l, r, scope, c) == 1 <==> Eval(l, scope, c) == Eval(r, scope, c)
  {
  }

  /** `&&` and `||` test for nonzero and give 0 or 1, and so does `!`. */
  lemma Logical(l: Expr, r: Expr, scope: Scope, c: Context)
    requires Named(l, scope) && Named(r, scope)
    ensures var a, b := Eval(l, scope, c) != 0, Eval(r, scope, c) != 0;
            && Value(AndAnd, l, r, scope, c) == (if a && b then 1 else 0)
            && Value(OrOr, l, r, scope, c) == (if a || b then 1 else 0)
            && Eval(Not(l), scope, c) == (if a then 0 else 1)
  {
  }

  /** `!` turns one into the other. */
  lemma DeMorgan(l: Expr, r: Expr, scope: Scope, c: Context)
    requires Named(l, scope) && Named(r, scope)
    ensures Eval(Not(Bin(AndAnd, l, r)), scope, c) == Value(OrOr, Not(l), Not(r), scope, c)
    ensures Eval(Not(Bin(OrOr, l, r)), scope, c) == Value(AndAnd, Not(l), Not(r), scope, c)
  {
    Logical(l, r, scope, c);
    Logical(r, l, scope, c);
    Logical(Not(l), Not(r), scope, c);
    Logical(Bin(AndAnd, l, r), Bin(OrOr, l, r), scope, c);
    Logical(Bin(OrOr, l, r), Bin(AndAnd, l, r), scope, c);
  }

  // ---------- one operand ----------

  /** Unary minus is the additive inverse in the narrowest of 8, 16 or 32 bits that holds the operand;
      brackets read the byte at the low 16 bits of the address; parentheses change nothing. */
  lemma OneOperand(e: Expr, scope: Scope, c: Context)
    requires Named(e, scope)
    ensures var v := Eval(e, scope, c);
            var w := if v <= 0xFF then 0x100 else if v <= 0xFFFF then 0x1_0000 else MAX32;
            && Eval(Neg(e), scope, c) == (if v == 0 then 0 else w - v)
            && Eval(Deref(e), scope, c) == c.bus(v % 0x1_0000) && Eval(Paren(e), scope, c) == v
  {
  }

  // ---------- names ----------

  const FLAG_NAMES := "CZIDB-VN"

  /** Registers by any spelling, in every scope. */
  lemma RegistersAreKnown(id: string, scope: Scope, c: Context)
    ensures Upper(id) == "A" ==> Named(Name(id), scope) && Eval(Name(id), scope, c) == c.a
    ensures Upper(id) == "X" ==> Named(Name(id), scope) && Eval(Name(id), scope, c) == c.x
    ensures Upper(id) == "Y" ==> Named(Name(id), scope) && Eval(Name(id), scope, c) == c.y
    ensures Upper(id) == "P" ==> Named(Name(id), scope) && Eval(Name(id), scope, c) == c.p
    ensures Upper(id) == "S" || Upper(id) == "SP" ==> Named(Name(id), scope) && Eval(Name(id), scope, c) == c.sp
    ensures Upper(id) == "PC" ==> Named(Name(id), scope) && Eval(Name(id), scope, c) == c.pc
  {
  }

  /** The letters of the status register, from bit 0 up, read their bit. */
  lemma FlagsAreBits(id: string, i: nat, scope: Scope, c: Context)
    requires i < 8 && i != 5 && Upper(id) == [FLAG_NAMES[i]]
    ensures Named(Name(id), scope) && Eval(Name(id), scope, c) == if BitAt(c.p, i) then 1 else 0
  {
    assert Lookup(scope, id) == Some(Flag(Pow2(i))) by {
      FlagMask(id, i, scope);
    }
    MaskIsBit(c.p, i);
  }

  lemma FlagMask(id: string, i: nat, scope: Scope)
    requires i < 8 && i != 5 && Upper(id) == [FLAG_NAMES[i]]
    ensures Lookup(scope, id) == Some(Flag(Pow2(i)))
  {
    assert Pow2(3) == 8 && Pow2(5) == 32 && Pow2(7) == 128;
    assert Upper(id)[0] == FLAG_NAMES[i];
  }

  lemma MaskIsBit(v: Byte, i: nat)
    requires i < 8
    ensures Bit(v, Pow2(i)) == BitAt(v, i)
  {
    assert Pow2(3) == 8 && Pow2(5) == 32 && Pow2(7) == 128;
    if i < 4 {
      LowMaskIsBit(v, i);
    } else {
      LowMaskIsBit(v / 16, i - 4);
      SkipFour(v, i);
      assert v / 32 == v / 16 / 2 && v / 64 == v / 16 / 4 && v / 128 == v / 16 / 8;
    }
  }

  lemma LowMaskIsBit(v: Byte, i: nat)
    requires i < 4
    ensures Bit(v, Pow2(i)) == BitAt(v, i)
  {
    assert Pow2(2) == 4 && Pow2(3) == 8;
    assert v / 4 == v / 2 / 2 && v / 8 == v / 2 / 2 / 2;
    assert BitAt(v, 2) == BitAt(v / 2, 1) && BitAt(v, 3) == BitAt(v / 2, 2);
  }

  lemma SkipFour(v: nat, i: nat)
    requires i >= 4
    ensures BitAt(v, i) == BitAt(v / 16, i - 4)
  {
    assert BitAt(v, i) == BitAt(v / 2, i - 1) == BitAt(v / 2 / 2, i - 2);
    assert BitAt(v / 2 / 2, i - 2) == BitAt(v / 2 / 2 / 2, i - 3) == BitAt(v / 2 / 2 / 2 / 2, i - 4);
    assert v / 2 / 2 / 2 / 2 == v / 16;
  }

  predicate Reserved(id: string) {
    Upper(id) in {"A", "X", "Y", "P", "S", "SP", "PC", "N", "V", "B", "D", "I", "Z", "C"}
  }

  /** Any other name is the host's if the host knows it, else a symbol's address, else unknown. */
  lemma OtherNames(id: string, scope: Scope, c: Context)
    requires !Reserved(id)
    ensures Named(Name(id), scope) <==> id in scope.host || id in scope.symbols
    ensures id in scope.host ==> Eval(Name(id), scope, c) == c.host(id)
    ensures id in scope.symbols && id !in scope.host ==> Eval(Name(id), scope, c) == scope.symbols[id]
  {
  }

  // ---------- precedence ----------

  /** The documented order, tightest first; operators of one group associate to the left. */
  const ORDER: seq<set<BinOp>> := [{Mul, Div}, {Add, Sub}, {Shl, Shr}, {And}, {Xor}, {Or},
                                   {Lt, Le, Gt, Ge}, {Eq, Ne}, {AndAnd}, {OrOr}]

  lemma LevelIsDocumented(op: BinOp)
    ensures op in ORDER[9 - Level(op)]
    ensures forall j | 0 <= j < |ORDER| && op in ORDER[j] :: j == 9 - Level(op)
  {
  }

  lemma OneOperator(x: U32, f: BinOp, y: U32, scope: Scope)
    ensures var e := Bin(f, Num(x), Num(y));
            && Named(e, scope) && Yield(e) == [TNum(x), TOp(f), TNum(y)]
            && forall k: nat :: Stratified(e, k) <==> k <= Level(f)
  {
    var e := Bin(f, Num(x), Num(y));
    assert forall k: nat :: Stratified(Num(x), k) && Stratified(Num(y), k);
    assert Yield(e) == [TNum(x)] + [TOp(f)] + [TNum(y)];
  }

  lemma Outer(op: BinOp, l: Expr, r: Expr, scope: Scope)
    requires Stratified(l, Level(op)) && Stratified(r, Level(op) + 1) && Named(l, scope) && Named(r, scope)
    ensures Stratified(Bin(op, l, r), 0) && Named(Bin(op, l, r), scope)
    ensures Yield(Bin(op, l, r)) == Yield(l) + [TOp(op)] + Yield(r)
  {
  }

  /** `x f y g z` without parentheses: g goes first exactly when its group is the tighter one. */
  lemma TighterGoesFirst(scope: Scope, x: U32, f: BinOp, y: U32, g: BinOp, z: U32, i: nat, j: nat)
    requires i < |ORDER| && j < |ORDER| && f in ORDER[i] && g in ORDER[j]
    ensures ParseAll(scope, [TNum(x), TOp(f), TNum(y), TOp(g), TNum(z)])
            == Ok(if j < i then Bin(f, Num(x), Bin(g, Num(y), Num(z))) else Bin(g, Bin(f, Num(x), Num(y)), Num(z)))
  {
    LevelIsDocumented(f);
    LevelIsDocumented(g);
    if j < i {
      RightFirst(scope, x, f, y, g, z);
    } else {
      LeftFirst(scope, x, f, y, g, z);
    }
  }

  lemma RightFirst(scope: Scope, x: U32, f: BinOp, y: U32, g: BinOp, z: U32)
    requires Level(f) < Level(g)
    ensures ParseAll(scope, [TNum(x), TOp(f), TNum(y), TOp(g), TNum(z)])
            == Ok(Bin(f, Num(x), Bin(g, Num(y), Num(z))))
  {
    var ts := [TNum(x), TOp(f), TNum(y), TOp(g), TNum(z)];
    var inner := Bin(g, Num(y), Num(z));
    OneOperator(y, g, z, scope);
    assert Stratified(inner, Level(f) + 1) && Stratified(Num(x), Level(f));
    Outer(f, Num(x), inner, scope);
    assert [TNum(x)] + [TOp(f)] + Yield(inner) == ts;
    ParserIsGrammar(scope, ts, Bin(f, Num(x), inner));
  }

  lemma LeftFirst(scope: Scope, x: U32, f: BinOp, y: U32, g: BinOp, z: U32)
    requires Level(g) <= Level(f)
    ensures ParseAll(scope, [TNum(x), TOp(f), TNum(y), TOp(g), TNum(z)])
            == Ok(Bin(g, Bin(f, Num(x), Num(y)), Num(z)))
  {
    var ts := [TNum(x), TOp(f), TNum(y), TOp(g), TNum(z)];
    var inner := Bin(f, Num(x), Num(y));
    OneOperator(x, f, y, scope);
    assert Stratified(inner, Level(g)) && Stratified(Num(z), Level(g) + 1);
    Outer(g, inner, Num(z), scope);
    assert Yield(inner) + [TOp(g)] + [TNum(z)] == ts;
    ParserIsGrammar(scope, ts, Bin(g, inner, Num(z)));
  }
}
