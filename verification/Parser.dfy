/** The parser object: a cursor over the tokens and one loop per precedence level, each
    method proved equal to the parsing function on the remaining tokens. */
module Parser {
  import opened Basics
  import opened Expressions
  import opened ExpressionProofs

  class CondParser {
    const toks: seq<Token>
    const scope: Scope
    var pos: nat

    ghost predicate Valid()
      reads this
    {
      pos <= |toks|
    }

    constructor (toks: seq<Token>, scope: Scope)
      ensures Valid() && pos == 0 && this.toks == toks && this.scope == scope
    {
      this.toks, this.scope, pos := toks, scope, 0;
    }

    /** The method's answer is the function's, and the cursor stands on the function's rest. */
    ghost predicate Agrees(r: Result<Expr, Error>, spec: Result<Parsed, Error>)
      reads this
    {
      match spec
      case Err(e) => r == Err(e)
      case Ok(p) => r == Ok(p.expr) && Valid() && toks[pos..] == p.rest
    }

    /** Consumes the next token when it is `t`. */
    method Accept(t: Token) returns (ok: bool)
      requires Valid()
      modifies this
      ensures Valid()
      ensures ok <==> old(pos) < |toks| && toks[old(pos)] == t
      ensures pos == if ok then old(pos) + 1 else old(pos)
    {
      ok := pos < |toks| && toks[pos] == t;
      if ok {
        pos := pos + 1;
      }
    }

    method ParseLevelAt(k: nat) returns (r: Result<Expr, Error>)
      requires Valid() && k <= UNARY
      modifies this
      ensures Agrees(r, ParseLevel(scope, toks[old(pos)..], k))
      ensures r.Ok? ==> pos > old(pos)
      decreases |toks| - pos, UNARY - k, 2
    {
      if k == UNARY {
        r := ParseUnaryAt();
        return;
      }
      r := ParseLevelAt(k + 1);
      if r.Err? {
        return;
      }
      while pos < |toks| && toks[pos].TOp? && Level(toks[pos].op) == k
        invariant Valid() && r.Ok? && pos > old(pos)
        invariant ParseTail(scope, r.value, toks[pos..], k) == ParseLevel(scope, toks[old(pos)..], k)
        decreases |toks| - pos
      {
        var op := toks[pos].op;
        DropOne(toks, pos);
        pos := pos + 1;
        var right := ParseLevelAt(k + 1);
        if right.Err? {
          return right;
        }
        r := Ok(Bin(op, r.value, right.value));
      }
    }

    method ParseUnaryAt() returns (r: Result<Expr, Error>)
      requires Valid()
      modifies this
      ensures Agrees(r, ParseUnary(scope, toks[old(pos)..]))
      ensures r.Ok? ==> pos > old(pos)
      decreases |toks| - pos, 0, 1
    {
      ghost var ts := toks[pos..];
      assert pos < |toks| ==> ts[1..] == toks[pos + 1..];
      var bang := Accept(TBang);
      if bang {
        r := ParseUnaryAt();
        return if r.Ok? then Ok(Not(r.value)) else r;
      }
      var minus := Accept(TOp(Sub));
      if minus {
        r := ParseUnaryAt();
        return if r.Ok? then Ok(Neg(r.value)) else r;
      }
      r := ParsePrimaryAt();
    }

    method ParsePrimaryAt() returns (r: Result<Expr, Error>)
      requires Valid()
      modifies this
      ensures Agrees(r, ParsePrimary(scope, toks[old(pos)..]))
      ensures r.Ok? ==> pos > old(pos)
      decreases |toks| - pos, 0, 0
    {
      if pos >= |toks| {
        return Err(UnexpectedEnd);
      }
      DropOne(toks, pos);
      match toks[pos]
      case TNum(v) =>
        pos := pos + 1;
        r := Ok(Num(v));
      case LParen =>
        pos := pos + 1;
        r := ParseClosed(RParen, MissingParen);
        return if r.Ok? then Ok(Paren(r.value)) else r;
      case LBracket =>
        pos := pos + 1;
        r := ParseClosed(RBracket, MissingBracket);
        return if r.Ok? then Ok(Deref(r.value)) else r;
      case TIdent(id) =>
        pos := pos + 1;
        r := if Lookup(scope, id).Some? then Ok(Name(id)) else Err(UnknownName(id));
      case _ =>
        r := Err(UnexpectedToken);
    }

    /** An expression and the token that must close it. */
    method ParseClosed(close: Token, missing: Error) returns (r: Result<Expr, Error>)
      requires Valid()
      modifies this
      ensures match ParseLevel(scope, toks[old(pos)..], 0)
              case Err(e) => r == Err(e)
              case Ok(p) =>
                if p.rest != [] && p.rest[0] == close then r == Ok(p.expr) && Valid() && toks[pos..] == p.rest[1..]
                else r == Err(missing)
      ensures r.Ok? ==> pos > old(pos)
      decreases |toks| - pos, UNARY, 3
    {
      r := ParseLevelAt(0);
      if r.Err? {
        return;
      }
      if pos < |toks| {
        DropOne(toks, pos);
      }
      var ok := Accept(close);
      if !ok {
        r := Err(missing);
      }
    }
  }

  lemma DropOne(toks: seq<Token>, i: nat)
    requires i < |toks|
    ensures toks[i..][0] == toks[i] && toks[i..][1..] == toks[i + 1..]
  {
  }

  /** Compiling tokens succeeds exactly on the grammar, and then with the one tree they spell. */
  method Compile(scope: Scope, toks: seq<Token>) returns (r: Result<Expr, Error>)
    ensures r == ParseAll(scope, toks)
    ensures r.Ok? <==> exists e :: Stratified(e, 0) && Named(e, scope) && toks == Yield(e)
    ensures r.Ok? ==> toks == Yield(r.value)
  {
    var p := new CondParser(toks, scope);
    assert toks[0..] == toks;
    r := p.ParseLevelAt(0);
    if r.Ok? && p.pos != |toks| {
      r := Err(TrailingTokens);
    }
    if r.Ok? {
      ParserIsGrammar(scope, toks, r.value);
      var e := r.value;
      assert Stratified(e, 0) && Named(e, scope) && toks == Yield(e);
    } else {
      NoTree(scope, toks);
    }
  }

  /** Tokens that do not parse are the yield of no tree of the grammar. */
  lemma NoTree(scope: Scope, toks: seq<Token>)
    requires ParseAll(scope, toks).Err?
    ensures !exists e :: Stratified(e, 0) && Named(e, scope) && toks == Yield(e)
  {
    forall e ensures !(Stratified(e, 0) && Named(e, scope) && toks == Yield(e)) {
      ParserIsGrammar(scope, toks, e);
    }
  }
}
