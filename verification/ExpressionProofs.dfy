/** The parser accepts exactly the stratified grammar, and compiling a printed tree gives a
    function equal to the tree's evaluation. */
module ExpressionProofs {
  import opened Basics
  import opened Text
  import opened Expressions

  /** No operator of level `k` or tighter follows. */
  predicate Stops(ts: seq<Token>, k: nat) {
    ts != [] && ts[0].TOp? ==> Level(ts[0].op) < k
  }

  // ---------- soundness ----------

  lemma {:induction false} LevelSound(scope: Scope, ts: seq<Token>, k: nat)
    requires k <= UNARY
    ensures var r := ParseLevel(scope, ts, k);
            r.Ok? ==> Stratified(r.value.expr, k) && Named(r.value.expr, scope)
                      && ts == Yield(r.value.expr) + r.value.rest && Stops(r.value.rest, k)
    decreases |ts|, UNARY - k, 2
  {
    if k == UNARY {
      UnarySound(scope, ts);
    } else {
      LevelSound(scope, ts, k + 1);
      var p := ParseLevel(scope, ts, k + 1);
      if p.Ok? {
        TailSound(scope, p.value.expr, p.value.rest, k);
      }
    }
  }

  lemma {:induction false} TailSound(scope: Scope, left: Expr, ts: seq<Token>, k: nat)
    requires k < UNARY && Stratified(left, k) && Named(left, scope) && Stops(ts, k + 1)
    ensures var r := ParseTail(scope, left, ts, k);
            r.Ok? ==> Stratified(r.value.expr, k) && Named(r.value.expr, scope)
                      && Yield(left) + ts == Yield(r.value.expr) + r.value.rest && Stops(r.value.rest, k)
    decreases |ts|, UNARY - k, 0
  {
    if StartsWithLevel(ts, k) {
      LevelSound(scope, ts[1..], k + 1);
      var p := ParseLevel(scope, ts[1..], k + 1);
      if p.Ok? {
        var b := Bin(ts[0].op, left, p.value.expr);
        assert Yield(left) + ts == Yield(b) + p.value.rest;
        TailSound(scope, b, p.value.rest, k);
      }
    }
  }

  lemma {:induction false} UnarySound(scope: Scope, ts: seq<Token>)
    ensures var r := ParseUnary(scope, ts);
            r.Ok? ==> Stratified(r.value.expr, UNARY) && Named(r.value.expr, scope)
                      && ts == Yield(r.value.expr) + r.value.rest && Stops(r.value.rest, UNARY)
    decreases |ts|, 0, 1
  {
    if ts != [] && (ts[0] == TBang || ts[0] == TOp(Sub)) {
      UnarySound(scope, ts[1..]);
    } else {
      PrimarySound(scope, ts);
    }
  }

  lemma {:induction false} PrimarySound(scope: Scope, ts: seq<Token>)
    ensures var r := ParsePrimary(scope, ts);
            r.Ok? ==> Stratified(r.value.expr, UNARY) && Named(r.value.expr, scope)
                      && ts == Yield(r.value.expr) + r.value.rest
    decreases |ts|, 0, 0
  {
    if ts != [] && (ts[0] == LParen || ts[0] == LBracket) {
      LevelSound(scope, ts[1..], 0);
    }
  }

  // ---------- completeness ----------

  function Size(e: Expr): nat {
    match e
    case Num(_) => 1
    case Name(_) => 1
    case Bin(_, l, r) => 1 + Size(l) + Size(r)
    case Not(a) => 1 + Size(a)
    case Neg(a) => 1 + Size(a)
    case Deref(a) => 1 + Size(a)
    case Paren(a) => 1 + Size(a)
  }

  lemma {:induction false} LevelComplete(scope: Scope, e: Expr, k: nat, rest: seq<Token>)
    requires k <= UNARY && Stratified(e, k) && Named(e, scope) && Stops(rest, k)
    ensures ParseLevel(scope, Yield(e) + rest, k) == Ok(Parsed(e, rest))
    decreases Size(e), UNARY - k, 1
  {
    if k == UNARY {
      UnaryComplete(scope, e, rest);
    } else {
      TailComplete(scope, e, k, rest);
    }
  }

  /** Reading a tree of level `k` leaves the parser in the tail of that level with the tree on the left. */
  lemma {:induction false} TailComplete(scope: Scope, e: Expr, k: nat, rest: seq<Token>)
    requires k < UNARY && Stratified(e, k) && Named(e, scope) && Stops(rest, k + 1)
    ensures ParseLevel(scope, Yield(e) + rest, k) == ParseTail(scope, e, rest, k)
    decreases Size(e), UNARY - k, 0
  {
    if e.Bin? && Level(e.op) == k {
      var more := [TOp(e.op)] + Yield(e.right) + rest;
      assert Yield(e) + rest == Yield(e.left) + more;
      TailComplete(scope, e.left, k, more);
      LevelComplete(scope, e.right, k + 1, rest);
      TailStep(scope, e.left, e.op, e.right, rest, k);
    } else {
      LevelComplete(scope, e, k + 1, rest);
    }
  }

  /** One operator and its right operand move into the tree on the left. */
  lemma TailStep(scope: Scope, left: Expr, op: BinOp, right: Expr, rest: seq<Token>, k: nat)
    requires k < UNARY && Level(op) == k
    requires ParseLevel(scope, Yield(right) + rest, k + 1) == Ok(Parsed(right, rest))
    ensures ParseTail(scope, left, [TOp(op)] + Yield(right) + rest, k)
            == ParseTail(scope, Bin(op, left, right), rest, k)
  {
    var more := [TOp(op)] + Yield(right) + rest;
    assert more[1..] == Yield(right) + rest;
  }

  lemma {:induction false} UnaryComplete(scope: Scope, e: Expr, rest: seq<Token>)
    requires Stratified(e, UNARY) && Named(e, scope) && Stops(rest, UNARY)
    ensures ParseUnary(scope, Yield(e) + rest) == Ok(Parsed(e, rest))
    decreases Size(e), 0, 0
  {
    var ts := Yield(e) + rest;
    match e
    case Num(_) => assert ts[1..] == rest;
    case Name(_) => assert ts[1..] == rest;
    case Not(a) =>
      assert ts[1..] == Yield(a) + rest;
      UnaryComplete(scope, a, rest);
    case Neg(a) =>
      assert ts[1..] == Yield(a) + rest;
      UnaryComplete(scope, a, rest);
    case Deref(a) => BracketComplete(scope, e, LBracket, a, RBracket, rest);
    case Paren(a) => BracketComplete(scope, e, LParen, a, RParen, rest);
  }

  lemma {:induction false} BracketComplete(scope: Scope, e: Expr, open: Token, a: Expr, close: Token, rest: seq<Token>)
    requires (e == Deref(a) && open == LBracket && close == RBracket)
             || (e == Paren(a) && open == LParen && close == RParen)
    requires Stratified(a, 0) && Named(a, scope)
    ensures ParsePrimary(scope, Yield(e) + rest) == Ok(Parsed(e, rest))
    decreases Size(a), UNARY, 2
  {
    var ts := Yield(e) + rest;
    var more := [close] + rest;
    assert ts[0] == open && ts[1..] == Yield(a) + more;
    LevelComplete(scope, a, 0, more);
    assert more[1..] == rest;
  }

  /** The parser answers with a tree exactly when the tokens are that tree's, the tree obeys the
      documented precedence and every name is known. In particular no token is left over and
      no token string has two readings. */
  lemma ParserIsGrammar(scope: Scope, ts: seq<Token>, e: Expr)
    ensures ParseAll(scope, ts) == Ok(e) <==> Stratified(e, 0) && Named(e, scope) && ts == Yield(e)
  {
    if ParseAll(scope, ts) == Ok(e) {
      LevelSound(scope, ts, 0);
    }
    if Stratified(e, 0) && Named(e, scope) && ts == Yield(e) {
      LevelComplete(scope, e, 0, []);
      assert ts + [] == ts;
    }
  }

  // ---------- printing ----------

  lemma {:induction false} MinimalIsStratified(e: Expr, k: nat)
    requires k <= UNARY
    ensures Stratified(Minimal(e, k), k)
    decreases e
  {
    match e
    case Num(_) =>
    case Name(_) =>
    case Bin(op, l, r) =>
      MinimalIsStratified(l, Level(op));
      MinimalIsStratified(r, Level(op) + 1);
    case Not(a) => MinimalIsStratified(a, UNARY);
    case Neg(a) => MinimalIsStratified(a, UNARY);
    case Deref(a) => MinimalIsStratified(a, 0);
    case Paren(a) => MinimalIsStratified(a, 0);
  }

  lemma {:induction false} MinimalKeepsNames(e: Expr, k: nat, scope: Scope)
    ensures Named(Minimal(e, k), scope) <==> Named(e, scope)
    decreases e
  {
    match e
    case Num(_) =>
    case Name(_) =>
    case Bin(op, l, r) =>
      MinimalKeepsNames(l, Level(op), scope);
      MinimalKeepsNames(r, Level(op) + 1, scope);
    case Not(a) => MinimalKeepsNames(a, UNARY, scope);
    case Neg(a) => MinimalKeepsNames(a, UNARY, scope);
    case Deref(a) => MinimalKeepsNames(a, 0, scope);
    case Paren(a) => MinimalKeepsNames(a, 0, scope);
  }

  /** Evaluation looks only at the values of the operands. */
  lemma EvalCongruence(op: BinOp, l: Expr, l': Expr, r: Expr, r': Expr, scope: Scope, c: Context)
    requires Named(l, scope) && Named(l', scope) && Named(r, scope) && Named(r', scope)
    requires Eval(l, scope, c) == Eval(l', scope, c) && Eval(r, scope, c) == Eval(r', scope, c)
    ensures Eval(Bin(op, l, r), scope, c) == Eval(Bin(op, l', r'), scope, c)
    ensures Eval(Not(l), scope, c) == Eval(Not(l'), scope, c)
    ensures Eval(Neg(l), scope, c) == Eval(Neg(l'), scope, c)
    ensures Eval(Deref(l), scope, c) == Eval(Deref(l'), scope, c)
  {
  }

  lemma {:induction false} MinimalMeansTheSame(e: Expr, k: nat, scope: Scope, c: Context)
    requires Named(e, scope)
    ensures Named(Minimal(e, k), scope) && Eval(Minimal(e, k), scope, c) == Eval(e, scope, c)
    decreases e
  {
    MinimalKeepsNames(e, k, scope);
    match e
    case Num(_) =>
    case Name(_) =>
    case Bin(op, l, r) =>
      var l', r' := Minimal(l, Level(op)), Minimal(r, Level(op) + 1);
      MinimalMeansTheSame(l, Level(op), scope, c);
      MinimalMeansTheSame(r, Level(op) + 1, scope, c);
      EvalCongruence(op, l, l', r, r', scope, c);
      assert Eval(Paren(Bin(op, l', r')), scope, c) == Eval(Bin(op, l', r'), scope, c);
    case Not(a) =>
      MinimalMeansTheSame(a, UNARY, scope, c);
      EvalCongruence(Or, a, Minimal(a, UNARY), a, a, scope, c);
    case Neg(a) =>
      MinimalMeansTheSame(a, UNARY, scope, c);
      EvalCongruence(Or, a, Minimal(a, UNARY), a, a, scope, c);
    case Deref(a) =>
      MinimalMeansTheSame(a, 0, scope, c);
      EvalCongruence(Or, a, Minimal(a, 0), a, a, scope, c);
    case Paren(a) => MinimalMeansTheSame(a, 0, scope, c);
  }

  /** No parentheses are added to a tree that needs none, and they are all that is added. */
  lemma {:induction false} MinimalAddsOnlyParens(e: Expr, k: nat)
    requires Plain(e)
    ensures Strip(Minimal(e, k)) == e
    ensures k <= UNARY && Stratified(e, k) ==> Minimal(e, k) == e
    decreases e
  {
    match e
    case Num(_) =>
    case Name(_) =>
    case Bin(op, l, r) =>
      MinimalAddsOnlyParens(l, Level(op));
      MinimalAddsOnlyParens(r, Level(op) + 1);
    case Not(a) => MinimalAddsOnlyParens(a, UNARY);
    case Neg(a) => MinimalAddsOnlyParens(a, UNARY);
    case Deref(a) => MinimalAddsOnlyParens(a, 0);
  }

  /** Any tree of the grammar has at least the parentheses of the printed one, and only the printed
      one has so few. */
  lemma {:induction false} MinimalHasFewestParens(t: Expr, k: nat)
    requires Stratified(t, k)
    ensures Parens(Minimal(Strip(t), k)) <= Parens(t)
    ensures Parens(Minimal(Strip(t), k)) == Parens(t) ==> t == Minimal(Strip(t), k)
    decreases t
  {
    match t
    case Num(_) =>
    case Name(_) =>
    case Bin(op, l, r) =>
      MinimalHasFewestParens(l, Level(op));
      MinimalHasFewestParens(r, Level(op) + 1);
    case Not(a) => MinimalHasFewestParens(a, UNARY);
    case Neg(a) => MinimalHasFewestParens(a, UNARY);
    case Deref(a) => MinimalHasFewestParens(a, 0);
    case Paren(a) =>
      MinimalHasFewestParens(a, 0);
      StripIsPlain(a);
      TighterCostsOnePair(Strip(a), k);
  }

  lemma StripIsPlain(e: Expr)
    ensures Plain(Strip(e))
  {
  }

  /** A tighter context costs at most the pair around the whole tree. */
  lemma TighterCostsOnePair(e: Expr, k: nat)
    requires Plain(e)
    ensures Minimal(e, k) == Minimal(e, 0) || Minimal(e, k) == Paren(Minimal(e, 0))
  {
  }

  lemma {:induction false} YieldLength(t: Expr)
    ensures |Yield(t)| == |Yield(Strip(t))| + 2 * Parens(t)
    decreases t
  {
    match t
    case Num(_) =>
    case Name(_) =>
    case Bin(op, l, r) =>
      YieldLength(l);
      YieldLength(r);
    case Not(a) => YieldLength(a);
    case Neg(a) => YieldLength(a);
    case Deref(a) => YieldLength(a);
    case Paren(a) => YieldLength(a);
  }

  /** No source the parser reads as the same tree is shorter than the printed one, and no other
      is as short. */
  lemma PrintedIsShortest(scope: Scope, ts: seq<Token>)
    requires ParseAll(scope, ts).Ok?
    ensures var printed := Yield(Minimal(Strip(ParseAll(scope, ts).value), 0));
            |printed| <= |ts| && (|printed| == |ts| ==> printed == ts)
  {
    var t := ParseAll(scope, ts).value;
    var m := Minimal(Strip(t), 0);
    ParserIsGrammar(scope, ts, t);
    MinimalHasFewestParens(t, 0);
    StripIsPlain(t);
    MinimalAddsOnlyParens(Strip(t), 0);
    YieldLength(t);
    YieldLength(m);
  }

  /** Print any tree with the fewest parentheses and parse it: the result evaluates as the tree. */
  lemma PrintedTreeParses(scope: Scope, e: Expr, c: Context)
    requires Named(e, scope)
    ensures var printed := Minimal(e, 0);
            && ParseAll(scope, Yield(printed)) == Ok(printed)
            && Named(printed, scope) && Eval(printed, scope, c) == Eval(e, scope, c)
  {
    MinimalIsStratified(e, 0);
    MinimalMeansTheSame(e, 0, scope, c);
    ParserIsGrammar(scope, Yield(Minimal(e, 0)), Minimal(e, 0));
  }

  // ---------- the arithmetic of single operators ----------

  function BitAt(v: nat, i: nat): bool
    decreases i
  {
    if i == 0 then v % 2 == 1 else BitAt(v / 2, i - 1)
  }

  /** `&`, `|` and `^` work on each of the 32 bits by itself. */
  lemma {:induction false} BitwiseWorksPerBit(f: Logic, l: nat, r: nat, n: nat, i: nat)
    requires i < n
    ensures BitAt(Bitwise(f, l, r, n), i) == LogicBit(f, BitAt(l, i), BitAt(r, i))
    decreases n
  {
    var v := Bitwise(f, l, r, n);
    assert v / 2 == Bitwise(f, l / 2, r / 2, n - 1);
    if i > 0 {
      BitwiseWorksPerBit(f, l / 2, r / 2, n - 1, i - 1);
    }
  }

  /** Unary minus is the additive inverse in the narrowest of 8, 16 or 32 bits that holds the operand. */
  lemma NegateIsInverse(v: U32)
    ensures var w := if v <= 0xFF then 0x100 else if v <= 0xFFFF then 0x1_0000 else MAX32;
            Negate(v) < w && (Negate(v) + v) % w == 0
  {
  }
}
