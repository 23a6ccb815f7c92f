/** The parselets as the source runs them: methods over a token stack that
    they pop in place, each proved to compute what the matching function of
    module ParseSpec computes. */
module Parselets {
  import opened Wrappers
  import opened Syntax
  import opened Tokens
  import S = ParseSpec

  /** A method outcome agrees with the functional one: the same tree and the
      same remaining stack, or the same error. After an error the source has
      thrown, and the stack is no longer looked at. */
  predicate Agrees(r: Result<Ast>, rest: seq<Token>, spec: Result<S.Parsed>) {
    match spec
    case Ok(p) => r == Ok(p.ast) && rest == p.rest
    case Err(e) => r == Err(e)
  }

  /** The token array shared by the parselets of one parse; its next token
      is its last element. */
  class TokenStack {
    var tokens: seq<Token>

    constructor(ts: seq<Token>)
      ensures tokens == ts
    {
      tokens := ts;
    }

    /** expect_consume: the token is popped before its kind is checked, so
        on an error the stack has lost it too. */
    method ExpectConsume(kind: Kind, errorMsg: Option<string>) returns (r: Result<Token>)
      modifies this
      ensures var spec := S.ExpectConsume(old(tokens), kind, errorMsg);
              match spec
              case Ok(c) => r == Ok(c.token) && tokens == c.rest
              case Err(e) => r == Err(e) && tokens == (if old(tokens) == [] then [] else S.Pop(old(tokens)))
    {
      var msg := if errorMsg.Some? && errorMsg.value != "" then errorMsg.value
                 else "Unexpected token, expected " + KindName(kind);
      if tokens == [] {
        return Err(msg);
      }
      var next := tokens[|tokens| - 1];
      tokens := tokens[..|tokens| - 1];
      if KindOf(next) != kind {
        return Err(msg);
      }
      return Ok(next);
    }

    /** parseExpr: a prefix parselet, then infix parselets while the next
        token binds tighter than `min`. */
    method ParseExpr(min: int) returns (r: Result<Ast>)
      modifies this
      decreases |tokens|, 0
      ensures Agrees(r, tokens, S.ParseExpr(old(tokens), min))
    {
      if tokens == [] {
        return Err("Unexpected end of input");
      }
      var t := tokens[|tokens| - 1];
      tokens := tokens[..|tokens| - 1];
      var p := S.PrefixParseletFor(t, S.Next(tokens));
      if p.None? {
        return Err("Unexpected token in prefix position");
      }
      var left := PrefixParse(p.value, t);
      if left.Err? {
        return left;
      }
      var node := left.value;
      while tokens != [] && S.InfixParseletFor(S.Last(tokens)).Some? && S.BindingPower(S.Last(tokens)) > min
        invariant |tokens| < |old(tokens)|
        invariant S.InfixLoop(node, tokens, min) == S.ParseExpr(old(tokens), min)
        decreases |tokens|
      {
        var ip := S.InfixParseletFor(S.Last(tokens)).value;
        tokens := tokens[..|tokens| - 1];
        var next := InfixParse(ip, node);
        if next.Err? {
          return next;
        }
        node := next.value;
      }
      return Ok(node);
    }

    /** The prefix parselets; `current` has already been popped. */
    method PrefixParse(p: S.PrefixParselet, current: Token) returns (r: Result<Ast>)
      modifies this
      decreases |tokens|, 2
      ensures Agrees(r, tokens, S.PrefixParse(p, old(tokens), current))
    {
      match p
      case NumberParselet =>
        if current.NUMBER? {
          r := Ok(Number(current.number));
        } else {
          r := Err("Tried to use NumberParselet with non-number token");
        }
      case StringParselet =>
        if current.STRING? {
          r := Ok(String(current.content));
        } else {
          r := Err("Tried to use StringParselet with non-string token");
        }
      case IdentifierParselet =>
        if current.IDENTIFIER? {
          r := Ok(Identifier(current.content));
        } else {
          r := Err("Tried to use IdentifierParselet with non-number token");
        }
      case ParenthesisParselet =>
        var expr := ParseExpr(0);
        if expr.Err? {
          return expr;
        }
        var close := ExpectConsume(SymbolKind(RPAREN), Some("Expected right paren to close expression"));
        if close.Err? {
          return Err(close.error);
        }
        r := expr;
      case UnaryOperatorParselet(op) =>
        var expr := ParseExpr(0);
        if expr.Err? {
          return expr;
        }
        r := Ok(Unop(op, expr.value));
      case BuiltinParselet =>
        r := ParseBuiltin(current);
    }

    /** BuiltinParselet: the name, LPAREN, a comma-separated argument list
        and RPAREN. */
    method ParseBuiltin(current: Token) returns (r: Result<Ast>)
      modifies this
      decreases |tokens|, 1
      ensures Agrees(r, tokens, S.BuiltinParse(old(tokens), current))
    {
      if !current.IDENTIFIER? {
        return Err("Tried to use BuiltinParselet on non-identifier");
      }
      var name := current.content;
      var open := ExpectConsume(SymbolKind(LPAREN), Some("Expected parenthesis after built-in \"" + name + "\""));
      if open.Err? {
        return Err(open.error);
      }
      ghost var start := tokens;
      var args: seq<Ast> := [];
      while true
        invariant |tokens| <= |start| < |old(tokens)|
        invariant S.ParseArgs(name, tokens, args) == S.ParseArgs(name, start, [])
        decreases |tokens|
      {
        if tokens == [] {
          return Err("Unexpected end of argument list for built-in \"" + name + "\"");
        }
        if tokens[|tokens| - 1] == Sym(RPAREN) {
          break;
        }
        ghost var before := tokens;
        var arg := ParseExpr(0);
        if arg.Err? {
          return Err(arg.error);
        }
        args := args + [arg.value];
        if tokens == [] {
          return Err(S.UndefinedKindError);
        }
        if tokens[|tokens| - 1] != Sym(COMMA) {
          assert S.ParseArgs(name, before, args[..|args| - 1]) == Ok(S.ParsedArgs(args, tokens));
          break;
        }
        tokens := tokens[..|tokens| - 1];
      }
      assert S.ParseArgs(name, start, []) == Ok(S.ParsedArgs(args, tokens));
      var close := ExpectConsume(SymbolKind(RPAREN),
                                 Some("Expected closing parenthesis after arguments to built-in \"" + name + "\""));
      if close.Err? {
        return Err(close.error);
      }
      return Ok(Builtin(name, args));
    }

    /** OperatorParselet; the operator token has already been popped. */
    method InfixParse(p: S.InfixParselet, left: Ast) returns (r: Result<Ast>)
      modifies this
      decreases |tokens|, 1
      ensures Agrees(r, tokens, S.InfixParse(p, old(tokens), left))
    {
      var bindingPower := S.BindingPower(S.OpToToken(p.op));
      var right := ParseExpr(if p.isLeftAssociative then bindingPower else bindingPower - 1);
      if right.Err? {
        return right;
      }
      return Ok(Binop(p.op, left, right.value));
    }
  }
}
