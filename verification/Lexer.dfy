/** The expression tokenizer, and its inverse on space-separated tokens. */
module Lexer {
  import opened Basics
  import opened Text
  import opened Expressions
  import opened ExpressionProofs

  /** Latin-1 white space, as the tokenizer classifies single bytes. */
  predicate IsSpace(c: char) {
    var v := c as int;
    9 <= v <= 13 || v in {0x20, 0x85, 0xA0}
  }

  predicate IsIdentStart(c: char) {
    'a' <= c <= 'z' || 'A' <= c <= 'Z' || c == '_'
  }

  predicate IsIdentCont(c: char) {
    IsIdentStart(c) || IsDigit(c)
  }

  function HexRun(s: string): (n: nat)
    ensures n <= |s| && AllHex(s[..n]) && (n < |s| ==> !IsHexDigit(s[n]))
  {
    if s == [] || !IsHexDigit(s[0]) then 0
    else
      var n := HexRun(s[1..]);
      assert s[..n + 1] == [s[0]] + s[1..][..n];
      n + 1
  }

  function IdentRun(s: string): (n: nat)
    ensures n <= |s|
  {
    if s == [] || !IsIdentCont(s[0]) then 0 else 1 + IdentRun(s[1..])
  }

  /** A token and how many characters it takes. */
  datatype Lexeme = Lexeme(token: Token, length: nat)

  /** A one-character operator unless the next character makes it a two-character one. */
  function Either(s: string, second: char, double: Token, single: Token): Lexeme {
    if |s| > 1 && s[1] == second then Lexeme(double, 2) else Lexeme(single, 1)
  }

  function LexSymbol(s: string): Result<Lexeme, Error>
    requires s != []
  {
    match s[0]
    case '(' => Ok(Lexeme(LParen, 1))
    case ')' => Ok(Lexeme(RParen, 1))
    case '[' => Ok(Lexeme(LBracket, 1))
    case ']' => Ok(Lexeme(RBracket, 1))
    case '+' => Ok(Lexeme(TOp(Add), 1))
    case '-' => Ok(Lexeme(TOp(Sub), 1))
    case '*' => Ok(Lexeme(TOp(Mul), 1))
    case '/' => Ok(Lexeme(TOp(Div), 1))
    case '^' => Ok(Lexeme(TOp(Xor), 1))
    case '!' => Ok(Either(s, '=', TOp(Ne), TBang))
    case '=' => if |s| > 1 && s[1] == '=' then Ok(Lexeme(TOp(Eq), 2)) else Err(StrayEquals)
    case '<' => if |s| > 1 && s[1] == '=' then Ok(Lexeme(TOp(Le), 2)) else Ok(Either(s, '<', TOp(Shl), TOp(Lt)))
    case '>' => if |s| > 1 && s[1] == '=' then Ok(Lexeme(TOp(Ge), 2)) else Ok(Either(s, '>', TOp(Shr), TOp(Gt)))
    case '&' => Ok(Either(s, '&', TOp(AndAnd), TOp(And)))
    case '|' => Ok(Either(s, '|', TOp(OrOr), TOp(Or)))
    case _ => Err(UnexpectedChar)
  }

  /** Literals are accumulated in 32 bits, so longer ones wrap. */
  function LexWord(s: string): Result<Lexeme, Error>
    requires s != []
  {
    if s[0] == '$' then
      var n := HexRun(s[1..]);
      if n == 0 then Err(EmptyHex) else Ok(Lexeme(TNum(Wrap32(HexNumber(s[1..][..n]))), n + 1))
    else if s[0] == '0' && |s| > 1 && (s[1] == 'x' || s[1] == 'X') then
      var n := HexRun(s[2..]);
      Ok(Lexeme(TNum(Wrap32(HexNumber(s[2..][..n]))), n + 2))
    else if IsDigit(s[0]) then
      var n := DigitRun(s);
      Ok(Lexeme(TNum(Wrap32(DecimalValue(s[..n]))), n))
    else if IsIdentStart(s[0]) then
      var n := 1 + IdentRun(s[1..]);
      Ok(Lexeme(TIdent(s[..n]), n))
    else Err(UnexpectedChar)
  }

  predicate IsWordStart(c: char) {
    c == '$' || IsDigit(c) || IsIdentStart(c)
  }

  function LexOne(s: string): (r: Result<Lexeme, Error>)
    requires s != []
    ensures r.Ok? ==> 1 <= r.value.length <= |s|
  {
    if IsWordStart(s[0]) then LexWord(s) else LexSymbol(s)
  }

  function Lex(s: string): Result<seq<Token>, Error>
    decreases |s|
  {
    if s == [] then Ok([])
    else if IsSpace(s[0]) then Lex(s[1..])
    else
      match LexOne(s)
      case Err(e) => Err(e)
      case Ok(x) =>
        (match Lex(s[x.length..])
         case Err(e) => Err(e)
         case Ok(ts) => Ok([x.token] + ts))
  }

  function CompileSource(scope: Scope, s: string): Result<Expr, Error> {
    match Lex(s)
    case Err(e) => Err(e)
    case Ok(ts) => ParseAll(scope, ts)
  }

  // ---------- rendering ----------

  function OpText(op: BinOp): string {
    match op
    case Mul => "*"
    case Div => "/"
    case Add => "+"
    case Sub => "-"
    case Shl => "<<"
    case Shr => ">>"
    case And => "&"
    case Xor => "^"
    case Or => "|"
    case Lt => "<"
    case Le => "<="
    case Gt => ">"
    case Ge => ">="
    case Eq => "=="
    case Ne => "!="
    case AndAnd => "&&"
    case OrOr => "||"
  }

  function TokenText(t: Token): string {
    match t
    case TNum(v) => Decimal(v)
    case TIdent(id) => id
    case TOp(op) => OpText(op)
    case TBang => "!"
    case LParen => "("
    case RParen => ")"
    case LBracket => "["
    case RBracket => "]"
  }

  predicate IsIdent(s: string) {
    s != [] && IsIdentStart(s[0]) && forall i | 0 < i < |s| :: IsIdentCont(s[i])
  }

  predicate WellSpelled(ts: seq<Token>) {
    forall i | 0 <= i < |ts| :: ts[i].TIdent? ==> IsIdent(ts[i].id)
  }

  function Render(ts: seq<Token>): string {
    if ts == [] then [] else TokenText(ts[0]) + " " + Render(ts[1..])
  }

  lemma {:induction false} IdentRunOf(id: string, rest: string)
    requires (forall i | 0 <= i < |id| :: IsIdentCont(id[i])) && (rest == [] || !IsIdentCont(rest[0]))
    ensures IdentRun(id + rest) == |id|
    decreases |id|
  {
    if id == [] {
      assert id + rest == rest;
    } else {
      assert (id + rest)[1..] == id[1..] + rest;
      IdentRunOf(id[1..], rest);
    }
  }

  lemma LexNumber(v: U32, rest: string)
    ensures LexOne(Decimal(v) + " " + rest) == Ok(Lexeme(TNum(v), |Decimal(v)|))
  {
    var d := DecimalDigits(v);
    LexDigitsThen(d, rest);
  }

  lemma DecimalDigits(v: U32) returns (d: string)
    ensures d == Decimal(v) && AllDigits(d) && d != [] && Wrap32(DecimalValue(d)) == v
  {
    d := Decimal(v);
    DecimalRoundTrip(v);
  }

  lemma LexDigitsThen(digits: string, rest: string)
    requires AllDigits(digits) && digits != []
    ensures LexOne(digits + " " + rest) == Ok(Lexeme(TNum(Wrap32(DecimalValue(digits))), |digits|))
  {
    LexDigits(digits, " " + rest);
    assert digits + " " + rest == digits + (" " + rest);
  }

  lemma LexDigits(digits: string, rest: string)
    requires AllDigits(digits) && digits != [] && rest != [] && rest[0] == ' '
    ensures LexOne(digits + rest) == Ok(Lexeme(TNum(Wrap32(DecimalValue(digits))), |digits|))
  {
    var s := digits + rest;
    DigitRunOf(digits, rest);
    assert s[..|digits|] == digits;
    assert s[0] == digits[0];
    assert s[1] == if |digits| > 1 then digits[1] else ' ';
  }

  lemma LexIdent(id: string, rest: string)
    requires IsIdent(id)
    ensures LexOne(id + " " + rest) == Ok(Lexeme(TIdent(id), |id|))
  {
    var s := id + " " + rest;
    assert s[1..] == id[1..] + (" " + rest);
    IdentRunOf(id[1..], " " + rest);
    assert s[..|id|] == id;
  }

  lemma LexOperator(op: BinOp, rest: string)
    ensures LexOne(OpText(op) + " " + rest) == Ok(Lexeme(TOp(op), |OpText(op)|))
  {
    var s := OpText(op) + " " + rest;
    assert s[0] == OpText(op)[0] && s[1] == (OpText(op) + " ")[1];
  }

  lemma LexToken(t: Token, rest: string)
    requires t.TIdent? ==> IsIdent(t.id)
    ensures var s := TokenText(t) + " " + rest;
            !IsSpace(s[0]) && LexOne(s) == Ok(Lexeme(t, |TokenText(t)|))
  {
    match t
    case TNum(v) =>
      LexNumber(v, rest);
      DecimalRoundTrip(v);
    case TIdent(id) => LexIdent(id, rest);
    case TOp(op) => LexOperator(op, rest);
    case _ =>
      var s := TokenText(t) + " " + rest;
      assert s[0] == TokenText(t)[0] && s[1] == ' ';
  }

  lemma {:induction false} LexRendered(ts: seq<Token>)
    requires WellSpelled(ts)
    ensures Lex(Render(ts)) == Ok(ts)
    decreases |ts|
  {
    if ts != [] {
      var t, rest := ts[0], ts[1..];
      LexRendered(rest);
      RenderedMore(t, rest);
      assert ts == [t] + rest;
    }
  }

  lemma RenderedMore(t: Token, rest: seq<Token>)
    requires (t.TIdent? ==> IsIdent(t.id)) && Lex(Render(rest)) == Ok(rest)
    ensures Lex(Render([t] + rest)) == Ok([t] + rest)
  {
    var more := Render(rest);
    assert ([t] + rest)[1..] == rest;
    assert Render([t] + rest) == TokenText(t) + " " + more;
    LexOneMore(t, more, rest);
  }

  lemma LexOneMore(t: Token, more: string, ts: seq<Token>)
    requires (t.TIdent? ==> IsIdent(t.id)) && Lex(more) == Ok(ts)
    ensures Lex(TokenText(t) + " " + more) == Ok([t] + ts)
  {
    var text := TokenText(t);
    var s := text + " " + more;
    LexToken(t, more);
    assert s[|text|..] == " " + more && (" " + more)[1..] == more;
    assert Lex(" " + more) == Lex(more);
  }

  lemma LoneOperator(op: BinOp)
    ensures Lex(OpText(op) + " ") == Ok([TOp(op)])
  {
    LexRendered([TOp(op)]);
    assert [TOp(op)][1..] == [] && Render([]) == "";
    assert Render([TOp(op)]) == OpText(op) + " " + "" == OpText(op) + " ";
  }

  /** How the operators are written. */
  const SPELLINGS: set<(string, BinOp)> :=
    {("*", Mul), ("/", Div), ("+", Add), ("-", Sub), ("<<", Shl), (">>", Shr), ("&", And), ("^", Xor), ("|", Or),
     ("<", Lt), ("<=", Le), (">", Gt), (">=", Ge), ("==", Eq), ("!=", Ne), ("&&", AndAnd), ("||", OrOr)}

  lemma OperatorIsRead(text: string, op: BinOp)
    requires (text, op) in SPELLINGS
    ensures Lex(text + " ") == Ok([TOp(op)])
  {
    assert text == OpText(op);
    LoneOperator(op);
  }

  /** From source text to value: print any tree with the fewest parentheses, compile the text,
      and the compiled function equals the tree's own 32-bit evaluation. */
  lemma PrintCompileEval(scope: Scope, e: Expr, c: Context)
    requires Named(e, scope) && WellSpelled(Yield(Minimal(e, 0)))
    ensures var r := CompileSource(scope, Render(Yield(Minimal(e, 0))));
            r == Ok(Minimal(e, 0)) && Named(r.value, scope) && Eval(r.value, scope, c) == Eval(e, scope, c)
  {
    LexRendered(Yield(Minimal(e, 0)));
    PrintedTreeParses(scope, e, c);
  }

  // ---------- the tokenizer's loops ----------

  function Prepend(ts: seq<Token>, r: Result<seq<Token>, Error>): Result<seq<Token>, Error> {
    match r
    case Err(e) => Err(e)
    case Ok(more) => Ok(ts + more)
  }

  lemma PrependTwice(ts: seq<Token>, t: Token, whole: Result<seq<Token>, Error>, r: Result<seq<Token>, Error>)
    requires whole == Prepend([t], r)
    ensures Prepend(ts, whole) == Prepend(ts + [t], r)
  {
    if r.Ok? {
      assert ts + ([t] + r.value) == ts + [t] + r.value;
    }
  }

  lemma LexSpace(s: string, i: nat)
    requires i < |s| && IsSpace(s[i])
    ensures Lex(s[i..]) == Lex(s[i + 1..])
  {
    assert s[i..][1..] == s[i + 1..];
  }

  /** The token at a position that is not white space, in terms of what the rest lexes to. */
  method TakeToken(s: string, i: nat) returns (r: Result<Lexeme, Error>)
    requires i < |s| && !IsSpace(s[i])
    ensures r.Err? ==> Lex(s[i..]) == Err(r.error)
    ensures r.Ok? ==> 1 <= r.value.length <= |s| - i
                      && Lex(s[i..]) == Prepend([r.value.token], Lex(s[i + r.value.length..]))
  {
    r := NextLexeme(s, i);
    if r.Ok? {
      assert s[i..][r.value.length..] == s[i + r.value.length..];
    }
  }

  lemma PrependNothing(r: Result<seq<Token>, Error>)
    ensures Prepend([], r) == r
  {
    assert r.Ok? ==> [] + r.value == r.value;
  }

  /** Takes a token onto those already found. */
  method TakeOnto(s: string, i: nat, out: seq<Token>) returns (r: Result<(nat, seq<Token>), Error>)
    requires i < |s| && !IsSpace(s[i])
    ensures r.Err? ==> Lex(s[i..]) == Err(r.error)
    ensures r.Ok? ==> i < r.value.0 <= |s| && Prepend(out, Lex(s[i..])) == Prepend(r.value.1, Lex(s[r.value.0..]))
  {
    var x := TakeToken(s, i);
    if x.Err? {
      return Err(x.error);
    }
    var next := i + x.value.length;
    PrependTwice(out, x.value.token, Lex(s[i..]), Lex(s[next..]));
    r := Ok((next, out + [x.value.token]));
  }

  /** One turn of the loop: skip a blank or take a token. */
  method Turn(s: string, i: nat, out: seq<Token>) returns (r: Result<(nat, seq<Token>), Error>)
    requires i < |s|
    ensures r.Err? ==> Lex(s[i..]) == Err(r.error)
    ensures r.Ok? ==> i < r.value.0 <= |s| && Prepend(out, Lex(s[i..])) == Prepend(r.value.1, Lex(s[r.value.0..]))
  {
    if IsSpace(s[i]) {
      LexSpace(s, i);
      r := Ok((i + 1, out));
    } else {
      r := TakeOnto(s, i, out);
    }
  }

  /** Walks the source once, keeping what the rest of it still has to yield. */
  method Tokenize(s: string) returns (r: Result<seq<Token>, Error>)
    ensures r == Lex(s)
  {
    var out: seq<Token> := [];
    var i := 0;
    assert s[0..] == s;
    PrependNothing(Lex(s));
    while i < |s|
      invariant 0 <= i <= |s|
      invariant Lex(s) == Prepend(out, Lex(s[i..]))
    {
      var turn := Turn(s, i, out);
      if turn.Err? {
        return Err(turn.error);
      }
      i, out := turn.value.0, turn.value.1;
    }
    assert s[i..] == [] && out + [] == out;
    r := Ok(out);
  }

  /** One token at position i; literals and names are scanned character by character. */
  method NextLexeme(s: string, i: nat) returns (r: Result<Lexeme, Error>)
    requires i < |s|
    ensures r == LexOne(s[i..])
  {
    var c := s[i];
    if c == '$' {
      assert s[i..][1..] == s[i + 1..];
      var v, n := ScanHex(s[i + 1..]);
      r := if n == 0 then Err(EmptyHex) else Ok(Lexeme(TNum(v), n + 1));
    } else if c == '0' && i + 1 < |s| && (s[i + 1] == 'x' || s[i + 1] == 'X') {
      assert s[i..][2..] == s[i + 2..];
      var v, n := ScanHex(s[i + 2..]);
      r := Ok(Lexeme(TNum(v), n + 2));
    } else if IsDigit(c) {
      var v, n := ScanDecimal(s[i..]);
      r := Ok(Lexeme(TNum(v), n));
    } else if IsIdentStart(c) {
      assert s[i..][1..] == s[i + 1..];
      var n := ScanIdent(s[i + 1..]);
      assert s[i..][..n + 1] == s[i..i + n + 1];
      r := Ok(Lexeme(TIdent(s[i..i + n + 1]), n + 1));
    } else {
      r := LexSymbol(s[i..]);
    }
  }

  method ScanIdent(s: string) returns (n: nat)
    ensures n == IdentRun(s)
  {
    n := 0;
    while n < |s| && IsIdentCont(s[n])
      invariant n <= |s| && IdentRun(s) == n + IdentRun(s[n..])
    {
      assert s[n..][1..] == s[n + 1..];
      n := n + 1;
    }
  }

  /** Finds the end of the digits, then accumulates them in 32 bits. */
  method ScanDecimal(s: string) returns (v: U32, n: nat)
    ensures n == DigitRun(s) && v == Wrap32(DecimalValue(s[..n]))
  {
    n := 0;
    while n < |s| && IsDigit(s[n])
      invariant n <= |s| && DigitRun(s) == n + DigitRun(s[n..])
    {
      assert s[n..][1..] == s[n + 1..];
      n := n + 1;
    }
    v := FoldDecimal(s[..n]);
  }

  method FoldDecimal(digits: string) returns (v: U32)
    requires AllDigits(digits)
    ensures v == Wrap32(DecimalValue(digits))
  {
    v := 0;
    for k := 0 to |digits|
      invariant v == Wrap32(DecimalValue(digits[..k]))
    {
      assert digits[..k + 1][..k] == digits[..k];
      AppendDigit(DecimalValue(digits[..k]), HexValue(digits[k]), 10);
      v := Wrap32(10 * v + HexValue(digits[k]));
    }
    assert digits[..|digits|] == digits;
  }

  method ScanHex(s: string) returns (v: U32, n: nat)
    ensures n == HexRun(s) && v == Wrap32(HexNumber(s[..n]))
  {
    n := 0;
    while n < |s| && IsHexDigit(s[n])
      invariant n <= |s| && HexRun(s) == n + HexRun(s[n..])
    {
      assert s[n..][1..] == s[n + 1..];
      n := n + 1;
    }
    v := FoldHex(s[..n]);
  }

  method FoldHex(digits: string) returns (v: U32)
    requires AllHex(digits)
    ensures v == Wrap32(HexNumber(digits))
  {
    v := 0;
    for k := 0 to |digits|
      invariant v == Wrap32(HexNumber(digits[..k]))
    {
      assert digits[..k + 1][..k] == digits[..k];
      AppendDigit(HexNumber(digits[..k]), HexValue(digits[k]), 16);
      v := Wrap32(16 * v + HexValue(digits[k]));
    }
    assert digits[..|digits|] == digits;
  }

  /** Wrapping after every digit is wrapping once at the end. */
  lemma AppendDigit(n: nat, d: nat, base: nat)
    requires base in {10, 16}
    ensures Wrap32(base * n + d) == Wrap32(base * Wrap32(n) + d)
  {
    assert n == MAX32 * (n / MAX32) + n % MAX32;
  }
}
