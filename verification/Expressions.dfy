/** Breakpoint and watch expressions: tokens, the stratified grammar, and 32-bit evaluation. */
module Expressions {
  import opened Basics
  import opened Text

  const MAX32 := 0x1_0000_0000

  type U32 = x: int | 0 <= x < MAX32

  datatype BinOp = Mul | Div | Add | Sub | Shl | Shr | And | Xor | Or
                 | Lt | Le | Gt | Ge | Eq | Ne | AndAnd | OrOr

  datatype Token = TNum(value: U32) | TIdent(id: string) | TOp(op: BinOp) | TBang
                 | LParen | RParen | LBracket | RBracket

  datatype Error = UnexpectedEnd | UnexpectedToken | MissingParen | MissingBracket | UnknownName(id: string)
                 | TrailingTokens | StrayEquals | EmptyHex | UnexpectedChar

  /** Parenthesised subexpressions stay in the tree, so that a tree determines its tokens. */
  datatype Expr = Num(value: U32) | Name(id: string) | Bin(op: BinOp, left: Expr, right: Expr)
                | Not(arg: Expr) | Neg(arg: Expr) | Deref(arg: Expr) | Paren(arg: Expr)

  // ---------- names ----------

  datatype Operand = RegA | RegX | RegY | RegP | RegSP | RegPC
                   | Flag(mask: nat) | Host(name: string) | Symbol(addr: Word)

  datatype Scope = Scope(host: set<string>, symbols: map<string, Word>)

  function Upper(s: string): string {
    seq(|s|, i requires 0 <= i < |s| => if 'a' <= s[i] <= 'z' then (s[i] as int - 32) as char else s[i])
  }

  /** Registers and flags by any spelling first, then the host's names, then symbols. */
  function Lookup(scope: Scope, id: string): Option<Operand> {
    var u := Upper(id);
    if u == "A" then Some(RegA)
    else if u == "X" then Some(RegX)
    else if u == "Y" then Some(RegY)
    else if u == "P" then Some(RegP)
    else if u == "SP" || u == "S" then Some(RegSP)
    else if u == "PC" then Some(RegPC)
    else if u == "N" then Some(Flag(0x80))
    else if u == "V" then Some(Flag(0x40))
    else if u == "B" then Some(Flag(0x10))
    else if u == "D" then Some(Flag(0x08))
    else if u == "I" then Some(Flag(0x04))
    else if u == "Z" then Some(Flag(0x02))
    else if u == "C" then Some(Flag(0x01))
    else if id in scope.host then Some(Host(id))
    else if id in scope.symbols then Some(Symbol(scope.symbols[id]))
    else None
  }

  // ---------- grammar ----------

  /** Precedence levels, loosest first; unary operators and primaries are level UNARY. */
  const UNARY := 10

  function Level(op: BinOp): (k: nat)
    ensures k < UNARY
  {
    match op
    case OrOr => 0
    case AndAnd => 1
    case Eq => 2
    case Ne => 2
    case Lt => 3
    case Le => 3
    case Gt => 3
    case Ge => 3
    case Or => 4
    case Xor => 5
    case And => 6
    case Shl => 7
    case Shr => 7
    case Add => 8
    case Sub => 8
    case Mul => 9
    case Div => 9
  }

  /** `e` is a tree of the grammar's nonterminal for level `k`: operators of one level associate
      to the left, looser ones need parentheses. */
  predicate Stratified(e: Expr, k: nat) {
    match e
    case Num(_) => true
    case Name(_) => true
    case Bin(op, l, r) => k <= Level(op) && Stratified(l, Level(op)) && Stratified(r, Level(op) + 1)
    case Not(a) => Stratified(a, UNARY)
    case Neg(a) => Stratified(a, UNARY)
    case Deref(a) => Stratified(a, 0)
    case Paren(a) => Stratified(a, 0)
  }

  /** Every name in the tree is known. */
  predicate Named(e: Expr, scope: Scope) {
    match e
    case Num(_) => true
    case Name(id) => Lookup(scope, id).Some?
    case Bin(_, l, r) => Named(l, scope) && Named(r, scope)
    case Not(a) => Named(a, scope)
    case Neg(a) => Named(a, scope)
    case Deref(a) => Named(a, scope)
    case Paren(a) => Named(a, scope)
  }

  function Yield(e: Expr): (ts: seq<Token>)
    ensures ts != []
  {
    match e
    case Num(v) => [TNum(v)]
    case Name(id) => [TIdent(id)]
    case Bin(op, l, r) => Yield(l) + [TOp(op)] + Yield(r)
    case Not(a) => [TBang] + Yield(a)
    case Neg(a) => [TOp(Sub)] + Yield(a)
    case Deref(a) => [LBracket] + Yield(a) + [RBracket]
    case Paren(a) => [LParen] + Yield(a) + [RParen]
  }

  // ---------- the recursive-descent parser ----------

  datatype Parsed = Parsed(expr: Expr, rest: seq<Token>)

  predicate StartsWithLevel(ts: seq<Token>, k: nat) {
    ts != [] && ts[0].TOp? && Level(ts[0].op) == k
  }

  /** Level k: one operand of the next tighter level, then as many operators of this level as follow. */
  function ParseLevel(scope: Scope, ts: seq<Token>, k: nat): (r: Result<Parsed, Error>)
    requires k <= UNARY
    ensures r.Ok? ==> |r.value.rest| < |ts|
    decreases |ts|, UNARY - k, 2
  {
    if k == UNARY then ParseUnary(scope, ts)
    else
      match ParseLevel(scope, ts, k + 1)
      case Err(e) => Err(e)
      case Ok(p) => ParseTail(scope, p.expr, p.rest, k)
  }

  function ParseTail(scope: Scope, left: Expr, ts: seq<Token>, k: nat): (r: Result<Parsed, Error>)
    requires k < UNARY
    ensures r.Ok? ==> |r.value.rest| <= |ts|
    decreases |ts|, UNARY - k, 0
  {
    if !StartsWithLevel(ts, k) then Ok(Parsed(left, ts))
    else
      match ParseLevel(scope, ts[1..], k + 1)
      case Err(e) => Err(e)
      case Ok(p) => ParseTail(scope, Bin(ts[0].op, left, p.expr), p.rest, k)
  }

  function ParseUnary(scope: Scope, ts: seq<Token>): (r: Result<Parsed, Error>)
    ensures r.Ok? ==> |r.value.rest| < |ts|
    decreases |ts|, 0, 1
  {
    if ts != [] && ts[0] == TBang then
      match ParseUnary(scope, ts[1..])
      case Err(e) => Err(e)
      case Ok(p) => Ok(Parsed(Not(p.expr), p.rest))
    else if ts != [] && ts[0] == TOp(Sub) then
      match ParseUnary(scope, ts[1..])
      case Err(e) => Err(e)
      case Ok(p) => Ok(Parsed(Neg(p.expr), p.rest))
    else ParsePrimary(scope, ts)
  }

  function ParsePrimary(scope: Scope, ts: seq<Token>): (r: Result<Parsed, Error>)
    ensures r.Ok? ==> |r.value.rest| < |ts|
    decreases |ts|, 0, 0
  {
    if ts == [] then Err(UnexpectedEnd)
    else
      match ts[0]
      case TNum(v) => Ok(Parsed(Num(v), ts[1..]))
      case LParen =>
        (match ParseLevel(scope, ts[1..], 0)
         case Err(e) => Err(e)
         case Ok(p) =>
           if p.rest != [] && p.rest[0] == RParen then Ok(Parsed(Paren(p.expr), p.rest[1..])) else Err(MissingParen))
      case LBracket =>
        (match ParseLevel(scope, ts[1..], 0)
         case Err(e) => Err(e)
         case Ok(p) =>
           if p.rest == [] || p.rest[0] != RBracket then Err(MissingBracket)
           else Ok(Parsed(Deref(p.expr), p.rest[1..])))
      case TIdent(id) => if Lookup(scope, id).Some? then Ok(Parsed(Name(id), ts[1..])) else Err(UnknownName(id))
      case _ => Err(UnexpectedToken)
  }

  function ParseAll(scope: Scope, ts: seq<Token>): Result<Expr, Error> {
    match ParseLevel(scope, ts, 0)
    case Err(e) => Err(e)
    case Ok(p) => if p.rest == [] then Ok(p.expr) else Err(TrailingTokens)
  }

  // ---------- evaluation ----------

  /** What an evaluator reads: registers, the host's values, and the bus. */
  datatype Context = Context(a: Byte, x: Byte, y: Byte, p: Byte, sp: Byte, pc: Word,
                             host: string -> U32, bus: Word -> Byte)

  function Bool(b: bool): U32 {
    if b then 1 else 0
  }

  function Bit(v: nat, mask: nat): bool
    requires mask > 0
  {
    v / mask % 2 == 1
  }

  function OperandValue(o: Operand, c: Context): U32 {
    match o
    case RegA => c.a
    case RegX => c.x
    case RegY => c.y
    case RegP => c.p
    case RegSP => c.sp
    case RegPC => c.pc
    case Flag(mask) => if mask > 0 then Bool(Bit(c.p, mask)) else 0
    case Host(name) => c.host(name)
    case Symbol(addr) => addr
  }

  function Wrap32(v: int): U32 {
    v % MAX32
  }

  /** Negation in the smallest of 8, 16 or 32 bits that holds the operand. */
  function Negate(v: U32): U32 {
    if v == 0 then 0
    else if v <= 0xFF then 0x100 - v
    else if v <= 0xFFFF then 0x1_0000 - v
    else MAX32 - v
  }

  function Pow2(n: nat): (p: nat)
    ensures p > 0
  {
    if n == 0 then 1 else 2 * Pow2(n - 1)
  }

  datatype Logic = LAnd | LOr | LXor

  function LogicBit(f: Logic, l: bool, r: bool): bool {
    match f
    case LAnd => l && r
    case LOr => l || r
    case LXor => l != r
  }

  /** A bitwise operation on the `n` low bits. */
  function Bitwise(f: Logic, l: nat, r: nat, n: nat): (v: nat)
    ensures v < Pow2(n)
  {
    if n == 0 then 0
    else 2 * Bitwise(f, l / 2, r / 2, n - 1) + if LogicBit(f, l % 2 == 1, r % 2 == 1) then 1 else 0
  }

  lemma Pow2Of32()
    ensures Pow2(32) == MAX32
  {
    assert Pow2(4) == 0x10;
    assert Pow2(8) == 0x100;
    assert Pow2(12) == 0x1000;
    assert Pow2(16) == 0x1_0000;
    assert Pow2(20) == 0x10_0000;
    assert Pow2(24) == 0x100_0000;
    assert Pow2(28) == 0x1000_0000;
  }

  function Logic32(f: Logic, l: U32, r: U32): U32 {
    Pow2Of32();
    Bitwise(f, l, r, 32)
  }

  function ShiftLeft(l: U32, n: nat): U32
    decreases n
  {
    if n == 0 then l else ShiftLeft(Wrap32(2 * l), n - 1)
  }

  function ShiftRight(l: U32, n: nat): U32 {
    if n == 0 then l else ShiftRight(l / 2, n - 1)
  }

  function Apply(op: BinOp, l: U32, r: U32): U32 {
    match op
    case Mul => Wrap32(l * r)
    case Div => if r == 0 then 0 else Quotient(l, r)
    case Add => Wrap32(l + r)
    case Sub => Wrap32(l - r)
    case Shl => ShiftLeft(l, r % 32)
    case Shr => ShiftRight(l, r % 32)
    case And => Logic32(LAnd, l, r)
    case Xor => Logic32(LXor, l, r)
    case Or => Logic32(LOr, l, r)
    case Lt => Bool(l < r)
    case Le => Bool(l <= r)
    case Gt => Bool(l > r)
    case Ge => Bool(l >= r)
    case Eq => Bool(l == r)
    case Ne => Bool(l != r)
    case AndAnd => Bool(l != 0 && r != 0)
    case OrOr => Bool(l != 0 || r != 0)
  }

  function Quotient(l: U32, d: nat): U32
    requires d > 0
  {
    QuotientSmaller(l, d);
    l / d
  }

  lemma QuotientSmaller(l: nat, d: nat)
    requires d > 0
    ensures 0 <= l / d <= l
  {
    assert l == d * (l / d) + l % d;
    if l / d < 0 {
      NegativeMultiple(d, l / d);
    } else {
      PositiveMultiple(d, l / d);
    }
  }

  lemma {:induction false} NegativeMultiple(d: nat, q: int)
    requires d > 0 && q < 0
    ensures d * q + d <= 0
    decreases -q
  {
    assert d * (q + 1) == d * q + d;
    if q < -1 {
      NegativeMultiple(d, q + 1);
    }
  }

  lemma {:induction false} PositiveMultiple(d: nat, q: nat)
    requires d > 0
    ensures d * q >= q
    decreases q
  {
    if q > 0 {
      PositiveMultiple(d, q - 1);
      assert d * (q - 1) == d * q - d;
    }
  }

  function Eval(e: Expr, scope: Scope, c: Context): U32
    requires Named(e, scope)
  {
    match e
    case Num(v) => v
    case Name(id) => OperandValue(Lookup(scope, id).value, c)
    case Bin(op, l, r) => Apply(op, Eval(l, scope, c), Eval(r, scope, c))
    case Not(a) => Bool(Eval(a, scope, c) == 0)
    case Neg(a) => Negate(Eval(a, scope, c))
    case Deref(a) => c.bus(Eval(a, scope, c) % 0x1_0000)
    case Paren(a) => Eval(a, scope, c)
  }

  // ---------- printing with the fewest parentheses ----------

  /** A tree without parentheses of its own. */
  predicate Plain(e: Expr) {
    match e
    case Num(_) => true
    case Name(_) => true
    case Bin(_, l, r) => Plain(l) && Plain(r)
    case Not(a) => Plain(a)
    case Neg(a) => Plain(a)
    case Deref(a) => Plain(a)
    case Paren(_) => false
  }

  /** Parentheses only where level `k` does not admit the tree as it stands. */
  function Minimal(e: Expr, k: nat): Expr {
    match e
    case Num(_) => e
    case Name(_) => e
    case Bin(op, l, r) =>
      var b := Bin(op, Minimal(l, Level(op)), Minimal(r, Level(op) + 1));
      if k <= Level(op) then b else Paren(b)
    case Not(a) => Not(Minimal(a, UNARY))
    case Neg(a) => Neg(Minimal(a, UNARY))
    case Deref(a) => Deref(Minimal(a, 0))
    case Paren(a) => Paren(Minimal(a, 0))
  }

  function Strip(e: Expr): Expr {
    match e
    case Num(_) => e
    case Name(_) => e
    case Bin(op, l, r) => Bin(op, Strip(l), Strip(r))
    case Not(a) => Not(Strip(a))
    case Neg(a) => Neg(Strip(a))
    case Deref(a) => Deref(Strip(a))
    case Paren(a) => Strip(a)
  }

  /** Pairs of parentheses in a tree. */
  function Parens(e: Expr): nat {
    match e
    case Num(_) => 0
    case Name(_) => 0
    case Bin(_, l, r) => Parens(l) + Parens(r)
    case Not(a) => Parens(a)
    case Neg(a) => Parens(a)
    case Deref(a) => Parens(a)
    case Paren(a) => 1 + Parens(a)
  }
}
