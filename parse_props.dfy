/** Properties of the parselets and the Pratt driver in module ParseSpec:
    what each parselet returns and consumes, and a printer whose output the
    parser reads back as the tree it was printed from. */
module ParseProps {
  import opened Wrappers
  import opened Syntax
  import opened Tokens
  import opened ParseSpec

  /** The leaf parselets return the leaf of the token's own kind with its
      content, and leave the stack as it was; any other token is an error. */
  lemma LeafParselets(ts: seq<Token>, t: Token)
    ensures PrefixParse(NumberParselet, ts, t).Ok? <==> t.NUMBER?
    ensures PrefixParse(StringParselet, ts, t).Ok? <==> t.STRING?
    ensures PrefixParse(IdentifierParselet, ts, t).Ok? <==> t.IDENTIFIER?
    ensures t.NUMBER? ==> PrefixParse(NumberParselet, ts, t) == Ok(Parsed(Number(t.number), ts))
    ensures t.STRING? ==> PrefixParse(StringParselet, ts, t) == Ok(Parsed(String(t.content), ts))
    ensures t.IDENTIFIER? ==> PrefixParse(IdentifierParselet, ts, t) == Ok(Parsed(Identifier(t.content), ts))
  {
  }

  /** ParenthesisParselet returns the inner expression itself, parsed at
      power 0, and succeeds exactly when an RPAREN follows it. */
  lemma ParenthesisParseletInner(ts: seq<Token>, t: Token)
    ensures PrefixParse(ParenthesisParselet, ts, t).Ok? <==>
              ParseExpr(ts, 0).Ok? && Next(ParseExpr(ts, 0).value.rest) == Some(Sym(RPAREN))
    ensures PrefixParse(ParenthesisParselet, ts, t).Ok? ==>
              PrefixParse(ParenthesisParselet, ts, t).value.ast == ParseExpr(ts, 0).value.ast &&
              PrefixParse(ParenthesisParselet, ts, t).value.rest + [Sym(RPAREN)] == ParseExpr(ts, 0).value.rest
  {
  }

  /** The operand of `not` is parsed at power 0, so it extends over every
      following binary operator: what remains starts with no operator. */
  lemma UnaryOperandAbsorbsOperators(ts: seq<Token>, t: Token)
    requires PrefixParse(UnaryOperatorParselet(Not), ts, t).Ok?
    ensures ParseExpr(ts, 0).Ok?
    ensures PrefixParse(UnaryOperatorParselet(Not), ts, t).value ==
              Parsed(Unop(Not, ParseExpr(ts, 0).value.ast), ParseExpr(ts, 0).value.rest)
    ensures var rest := PrefixParse(UnaryOperatorParselet(Not), ts, t).value.rest;
              rest == [] || TokenOperator(Last(rest)).None?
  {
  }

  /** Every operator has a positive binding power, above that of any other token. */
  lemma OperatorsBind(op: Operator)
    ensures BindingPower(OpToToken(op)) >= 1
  {
  }

  /** OperatorParselet parses its right operand at the operator's own power
      when left-associative and one below otherwise, and builds
      Binop(op, left, right). */
  lemma OperatorParseletPower(op: Operator, leftAssoc: bool, ts: seq<Token>, left: Ast)
    ensures var m := if leftAssoc then BindingPower(OpToToken(op)) else BindingPower(OpToToken(op)) - 1;
            var r := InfixParse(OperatorParselet(op, leftAssoc), ts, left);
            (r.Ok? <==> ParseExpr(ts, m).Ok?) &&
            (r.Ok? ==> r.value == Parsed(Binop(op, left, ParseExpr(ts, m).value.ast), ParseExpr(ts, m).value.rest))
  {
  }

  /** BuiltinParselet without an LPAREN right after the name is an error with
      the source's message. */
  lemma BuiltinNeedsLParen(ts: seq<Token>, name: string)
    requires Next(ts) != Some(Sym(LPAREN))
    ensures PrefixParse(BuiltinParselet, ts, IDENTIFIER(name)) ==
              Err("Expected parenthesis after built-in \"" + name + "\"")
  {
    var msg := "Expected parenthesis after built-in \"" + name + "\"";
    ExpectSymbol(ts, LPAREN, Some(msg));
    assert PrefixParse(BuiltinParselet, ts, IDENTIFIER(name)) == BuiltinParse(ts, IDENTIFIER(name));
  }

  /** Running out of tokens where an argument or RPAREN is expected is an error. */
  lemma BuiltinUnexpectedEnd(name: string)
    ensures PrefixParse(BuiltinParselet, [Sym(LPAREN)], IDENTIFIER(name)) ==
              Err("Unexpected end of argument list for built-in \"" + name + "\"")
  {
  }

  /** `name()` has no arguments and consumes exactly its three tokens. */
  lemma BuiltinNoArguments(S: seq<Token>, name: string)
    ensures PrefixParse(BuiltinParselet, S + [Sym(RPAREN), Sym(LPAREN)], IDENTIFIER(name)) ==
              Ok(Parsed(Builtin(name, []), S))
  {
    var ts := S + [Sym(RPAREN)] + [Sym(LPAREN)];
    assert ts == S + [Sym(RPAREN), Sym(LPAREN)];
    BuiltinSteps(S + [Sym(RPAREN)], name);
    PopLast(S, Sym(RPAREN));
  }

  /** After `name` and LPAREN, BuiltinParselet runs the argument loop and
      then requires the closing RPAREN. */
  lemma BuiltinSteps(X: seq<Token>, name: string)
    ensures var a := ParseArgs(name, X, []);
            PrefixParse(BuiltinParselet, X + [Sym(LPAREN)], IDENTIFIER(name)) ==
              if a.Err? then Err(a.error)
              else if Next(a.value.rest) == Some(Sym(RPAREN)) then Ok(Parsed(Builtin(name, a.value.args), Pop(a.value.rest)))
              else Err("Expected closing parenthesis after arguments to built-in \"" + name + "\"")
  {
    var ts := X + [Sym(LPAREN)];
    PopLast(X, Sym(LPAREN));
    ExpectSymbol(ts, LPAREN, Some("Expected parenthesis after built-in \"" + name + "\""));
    var a := ParseArgs(name, X, []);
    if a.Ok? {
      ExpectSymbol(a.value.rest, RPAREN, Some("Expected closing parenthesis after arguments to built-in \"" + name + "\""));
    }
    assert PrefixParse(BuiltinParselet, ts, IDENTIFIER(name)) == BuiltinParse(ts, IDENTIFIER(name));
  }

  /** A comma followed directly by RPAREN is accepted: `f(1,)` is `f(1)`. */
  lemma BuiltinTrailingComma(name: string)
    ensures PrefixParse(BuiltinParselet,
                        [Sym(RPAREN), Sym(COMMA), NUMBER(1.0), Sym(LPAREN)], IDENTIFIER(name)) ==
              Ok(Parsed(Builtin(name, [Number(1.0)]), []))
  {
    var t2 := [Sym(RPAREN)] + [Sym(COMMA)];
    var t1 := t2 + [NUMBER(1.0)];
    PopLast(t2, NUMBER(1.0));
    PopLast([Sym(RPAREN)], Sym(COMMA));
    LeafStep(t2, NUMBER(1.0), 0);
    HaltAtClose(Number(1.0), t2, 0);
    assert ParseExpr(t1, 0) == Ok(Parsed(Number(1.0), t2));
    assert ParseArgs(name, [Sym(RPAREN)], [Number(1.0)]) == Ok(ParsedArgs([Number(1.0)], [Sym(RPAREN)]));
    assert [] + [Number(1.0)] == [Number(1.0)];
    assert ParseArgs(name, t1, []) == Ok(ParsedArgs([Number(1.0)], [Sym(RPAREN)]));
    BuiltinSteps(t1, name);
    assert t1 + [Sym(LPAREN)] == [Sym(RPAREN), Sym(COMMA), NUMBER(1.0), Sym(LPAREN)];
  }

  /** A printer for trees, producing tokens in stack order (the first token
      to read is the last element). Every Binop and Unop is wrapped in
      parentheses, so the printed form does not depend on binding powers. */
  function Emit(a: Ast): seq<Token>
    decreases a
  {
    match a
    case Number(n) => [NUMBER(n)]
    case String(s) => [STRING(s)]
    case Identifier(x) => [IDENTIFIER(x)]
    case Unop(op, e) => [Sym(RPAREN)] + Emit(e) + [Sym(NOT), Sym(LPAREN)]
    case Binop(op, l, r) => [Sym(RPAREN)] + Emit(r) + [OpToToken(op)] + Emit(l) + [Sym(LPAREN)]
    case Builtin(f, args) => [Sym(RPAREN)] + EmitArgs(args) + [Sym(LPAREN), IDENTIFIER(f)]
  }

  /** Comma-separated arguments, the first argument read first. */
  function EmitArgs(args: seq<Ast>): seq<Token>
    decreases args
  {
    if args == [] then []
    else if |args| == 1 then Emit(args[0])
    else EmitArgs(args[1..]) + [Sym(COMMA)] + Emit(args[0])
  }

  /** A printed tree starts with a token that opens an expression. */
  lemma EmitStart(a: Ast)
    ensures Emit(a) != []
    ensures Last(Emit(a)).NUMBER? || Last(Emit(a)).STRING? || Last(Emit(a)).IDENTIFIER? || Last(Emit(a)) == Sym(LPAREN)
  {
  }

  lemma NextOfPush(X: seq<Token>, t: Token)
    ensures Next(X + [t]) == Some(t)
  {
  }

  lemma OpIsNotParen(op: Operator)
    ensures OpToToken(op) != Sym(LPAREN) && OpToToken(op) != Sym(RPAREN)
  {
  }

  lemma PopLast(X: seq<Token>, t: Token)
    ensures X + [t] != [] && Last(X + [t]) == t && Pop(X + [t]) == X
  {
    assert (X + [t])[..|X|] == X;
  }

  /** ExpectConsume of a symbol succeeds exactly when that symbol is next,
      and then pops it. */
  lemma ExpectSymbol(ts: seq<Token>, sym: Symbol, msg: Option<string>)
    ensures ExpectConsume(ts, SymbolKind(sym), msg).Ok? <==> Next(ts) == Some(Sym(sym))
    ensures Next(ts) == Some(Sym(sym)) ==> ExpectConsume(ts, SymbolKind(sym), msg) == Ok(Consumed(Sym(sym), Pop(ts)))
  {
  }

  /** How printed compound trees sit on top of the stack `S`. */
  lemma EmitUnop(e: Ast, S: seq<Token>)
    ensures S + Emit(Unop(Not, e)) == S + [Sym(RPAREN)] + Emit(e) + [Sym(NOT)] + [Sym(LPAREN)]
  {
  }

  lemma EmitBinop(op: Operator, l: Ast, r: Ast, S: seq<Token>)
    ensures S + Emit(Binop(op, l, r)) == S + [Sym(RPAREN)] + Emit(r) + [OpToToken(op)] + Emit(l) + [Sym(LPAREN)]
  {
  }

  lemma EmitBuiltin(f: string, args: seq<Ast>, S: seq<Token>)
    ensures S + Emit(Builtin(f, args)) == S + [Sym(RPAREN)] + EmitArgs(args) + [Sym(LPAREN), IDENTIFIER(f)]
  {
  }

  lemma EmitArgsCons(args: seq<Ast>, T: seq<Token>)
    requires |args| > 1
    ensures T + EmitArgs(args) == T + EmitArgs(args[1..]) + [Sym(COMMA)] + Emit(args[0])
  {
  }

  /** The infix loop stops at once on an RPAREN or a COMMA. */
  lemma HaltAtClose(a: Ast, S: seq<Token>, min: int)
    requires Next(S) == Some(Sym(RPAREN)) || Next(S) == Some(Sym(COMMA))
    ensures InfixLoop(a, S, min) == Ok(Parsed(a, S))
  {
  }

  /** One leaf token on top of `S`. */
  lemma LeafStep(S: seq<Token>, t: Token, min: int)
    requires t.NUMBER? || t.STRING? || (t.IDENTIFIER? && Next(S) != Some(Sym(LPAREN)))
    ensures ParseExpr(S + [t], min) ==
              InfixLoop(if t.NUMBER? then Number(t.number) else if t.STRING? then String(t.content) else Identifier(t.content), S, min)
  {
    PopLast(S, t);
  }

  /** An LPAREN on top of an expression that is followed by RPAREN. */
  lemma ParenStep(X: seq<Token>, a: Ast, S: seq<Token>, min: int)
    requires ParseExpr(X, 0) == Ok(Parsed(a, S + [Sym(RPAREN)]))
    ensures ParseExpr(X + [Sym(LPAREN)], min) == InfixLoop(a, S, min)
  {
    PopLast(X, Sym(LPAREN));
    PopLast(S, Sym(RPAREN));
  }

  /** A NOT on top of an expression. */
  lemma NotStep(X: seq<Token>, e: Ast, S: seq<Token>)
    requires ParseExpr(X, 0) == Ok(Parsed(e, S))
    ensures ParseExpr(X + [Sym(NOT)], 0) == InfixLoop(Unop(Not, e), S, 0)
  {
    PopLast(X, Sym(NOT));
  }

  /** An operator token on top of a right operand that ends at an RPAREN. */
  lemma OperatorStep(op: Operator, l: Ast, X: seq<Token>, r: Ast, S: seq<Token>)
    requires Next(S) == Some(Sym(RPAREN))
    requires ParseExpr(X, BindingPower(OpToToken(op))) == Ok(Parsed(r, S))
    ensures InfixLoop(l, X + [OpToToken(op)], 0) == Ok(Parsed(Binop(op, l, r), S))
  {
    PopLast(X, OpToToken(op));
    OperatorsBind(op);
    OpToTokenInverse(op, OpToToken(op));
    HaltAtClose(Binop(op, l, r), S, 0);
  }

  /** An identifier and LPAREN on top of an argument list closed by RPAREN. */
  lemma CallStep(X: seq<Token>, f: string, args: seq<Ast>, S: seq<Token>, min: int)
    requires ParseArgs(f, X, []) == Ok(ParsedArgs(args, S + [Sym(RPAREN)]))
    ensures ParseExpr(X + [Sym(LPAREN), IDENTIFIER(f)], min) == InfixLoop(Builtin(f, args), S, min)
  {
    assert X + [Sym(LPAREN), IDENTIFIER(f)] == (X + [Sym(LPAREN)]) + [IDENTIFIER(f)];
    PopLast(X + [Sym(LPAREN)], IDENTIFIER(f));
    PopLast(S, Sym(RPAREN));
    BuiltinSteps(X, f);
  }

  /** Reading a printed tree off the stack rebuilds the tree, whatever lies
      beneath it, as long as no LPAREN lies directly beneath (which would
      turn a leading identifier into a call); the driver then continues with
      its infix loop. */
  lemma {:induction false} ParseEmittedPrefix(a: Ast, S: seq<Token>, min: int)
    requires Next(S) != Some(Sym(LPAREN))
    ensures ParseExpr(S + Emit(a), min) == InfixLoop(a, S, min)
    decreases a
  {
    match a
    case Number(_) =>
      LeafCase(a, S, min);
    case String(_) =>
      LeafCase(a, S, min);
    case Identifier(_) =>
      LeafCase(a, S, min);
    case Unop(op, e) =>
      assert op == Not;
      ParseEmittedPrefix(e, S + [Sym(RPAREN)], 0);
      UnopCase(e, S, min);
    case Binop(op, l, r) =>
      NextOfPush(S, Sym(RPAREN));
      ParseEmittedPrefix(r, S + [Sym(RPAREN)], BindingPower(OpToToken(op)));
      NextOfPush(S + [Sym(RPAREN)] + Emit(r), OpToToken(op));
      OpIsNotParen(op);
      ParseEmittedPrefix(l, S + [Sym(RPAREN)] + Emit(r) + [OpToToken(op)], 0);
      BinopCase(op, l, r, S, min);
    case Builtin(f, args) =>
      ParseEmittedArgs(f, args, S + [Sym(RPAREN)], []);
      BuiltinCase(f, args, S, min);
  }

  /** The step for a leaf, one token long. */
  lemma LeafCase(a: Ast, S: seq<Token>, min: int)
    requires a.Number? || a.String? || a.Identifier?
    requires Next(S) != Some(Sym(LPAREN))
    ensures ParseExpr(S + Emit(a), min) == InfixLoop(a, S, min)
  {
    match a
    case Number(n) => LeafStep(S, NUMBER(n), min);
    case String(x) => LeafStep(S, STRING(x), min);
    case Identifier(x) => LeafStep(S, IDENTIFIER(x), min);
  }

  /** The step for `(not e)`, given the one for `e`. */
  lemma UnopCase(e: Ast, S: seq<Token>, min: int)
    requires ParseExpr(S + [Sym(RPAREN)] + Emit(e), 0) == InfixLoop(e, S + [Sym(RPAREN)], 0)
    ensures ParseExpr(S + Emit(Unop(Not, e)), min) == InfixLoop(Unop(Not, e), S, min)
  {
    UnopChain(e, S, min);
    EmitUnop(e, S);
  }

  lemma UnopChain(e: Ast, S: seq<Token>, min: int)
    requires ParseExpr(S + [Sym(RPAREN)] + Emit(e), 0) == InfixLoop(e, S + [Sym(RPAREN)], 0)
    ensures ParseExpr(S + [Sym(RPAREN)] + Emit(e) + [Sym(NOT)] + [Sym(LPAREN)], min) == InfixLoop(Unop(Not, e), S, min)
  {
    var S1 := S + [Sym(RPAREN)];
    var X := S1 + Emit(e);
    HaltAtClose(e, S1, 0);
    NotStep(X, e, S1);
    HaltAtClose(Unop(Not, e), S1, 0);
    ParenStep(X + [Sym(NOT)], Unop(Not, e), S, min);
  }

  /** The step for `(l op r)`, given the ones for `l` and `r`. */
  lemma BinopCase(op: Operator, l: Ast, r: Ast, S: seq<Token>, min: int)
    requires ParseExpr(S + [Sym(RPAREN)] + Emit(r), BindingPower(OpToToken(op))) ==
               InfixLoop(r, S + [Sym(RPAREN)], BindingPower(OpToToken(op)))
    requires ParseExpr(S + [Sym(RPAREN)] + Emit(r) + [OpToToken(op)] + Emit(l), 0) ==
               InfixLoop(l, S + [Sym(RPAREN)] + Emit(r) + [OpToToken(op)], 0)
    ensures ParseExpr(S + Emit(Binop(op, l, r)), min) == InfixLoop(Binop(op, l, r), S, min)
  {
    BinopChain(op, l, r, S, min);
    EmitBinop(op, l, r, S);
  }

  lemma BinopChain(op: Operator, l: Ast, r: Ast, S: seq<Token>, min: int)
    requires ParseExpr(S + [Sym(RPAREN)] + Emit(r), BindingPower(OpToToken(op))) ==
               InfixLoop(r, S + [Sym(RPAREN)], BindingPower(OpToToken(op)))
    requires ParseExpr(S + [Sym(RPAREN)] + Emit(r) + [OpToToken(op)] + Emit(l), 0) ==
               InfixLoop(l, S + [Sym(RPAREN)] + Emit(r) + [OpToToken(op)], 0)
    ensures ParseExpr(S + [Sym(RPAREN)] + Emit(r) + [OpToToken(op)] + Emit(l) + [Sym(LPAREN)], min) ==
              InfixLoop(Binop(op, l, r), S, min)
  {
    var S1 := S + [Sym(RPAREN)];
    var S2 := S1 + Emit(r);
    HaltAtClose(r, S1, BindingPower(OpToToken(op)));
    OperatorStep(op, l, S2, r, S1);
    ParenStep(S2 + [OpToToken(op)] + Emit(l), Binop(op, l, r), S, min);
  }

  /** The step for `f(args)`, given the argument loop's. */
  lemma BuiltinCase(f: string, args: seq<Ast>, S: seq<Token>, min: int)
    requires ParseArgs(f, S + [Sym(RPAREN)] + EmitArgs(args), []) == Ok(ParsedArgs([] + args, S + [Sym(RPAREN)]))
    ensures ParseExpr(S + Emit(Builtin(f, args)), min) == InfixLoop(Builtin(f, args), S, min)
  {
    assert [] + args == args;
    CallStep(S + [Sym(RPAREN)] + EmitArgs(args), f, args, S, min);
    EmitBuiltin(f, args, S);
  }

  /** The argument loop reads printed arguments back, up to the RPAREN. */
  lemma {:induction false} ParseEmittedArgs(f: string, args: seq<Ast>, T: seq<Token>, acc: seq<Ast>)
    requires Next(T) == Some(Sym(RPAREN))
    ensures ParseArgs(f, T + EmitArgs(args), acc) == Ok(ParsedArgs(acc + args, T))
    decreases args
  {
    if args == [] {
      assert T + EmitArgs(args) == T;
      assert acc + args == acc;
    } else if |args| == 1 {
      ParseEmittedPrefix(args[0], T, 0);
      LastArgCase(f, args, T, acc);
    } else {
      var S := T + EmitArgs(args[1..]) + [Sym(COMMA)];
      ParseEmittedPrefix(args[0], S, 0);
      ParseEmittedArgs(f, args[1..], T, acc + [args[0]]);
      ArgCase(f, args, T, acc);
    }
  }

  lemma LastArgCase(f: string, args: seq<Ast>, T: seq<Token>, acc: seq<Ast>)
    requires |args| == 1 && Next(T) == Some(Sym(RPAREN))
    requires ParseExpr(T + Emit(args[0]), 0) == InfixLoop(args[0], T, 0)
    ensures ParseArgs(f, T + EmitArgs(args), acc) == Ok(ParsedArgs(acc + args, T))
  {
    HaltAtClose(args[0], T, 0);
    ArgStep(f, args[0], T, acc);
    assert acc + args == acc + [args[0]];
  }

  lemma ArgCase(f: string, args: seq<Ast>, T: seq<Token>, acc: seq<Ast>)
    requires |args| > 1 && Next(T) == Some(Sym(RPAREN))
    requires ParseExpr(T + EmitArgs(args[1..]) + [Sym(COMMA)] + Emit(args[0]), 0) ==
               InfixLoop(args[0], T + EmitArgs(args[1..]) + [Sym(COMMA)], 0)
    requires ParseArgs(f, T + EmitArgs(args[1..]), acc + [args[0]]) == Ok(ParsedArgs(acc + [args[0]] + args[1..], T))
    ensures ParseArgs(f, T + EmitArgs(args), acc) == Ok(ParsedArgs(acc + args, T))
  {
    ArgChain(f, args[0], T + EmitArgs(args[1..]), acc);
    EmitArgsCons(args, T);
    assert acc + [args[0]] + args[1..] == acc + args;
  }

  lemma ArgChain(f: string, x: Ast, T2: seq<Token>, acc: seq<Ast>)
    requires ParseExpr(T2 + [Sym(COMMA)] + Emit(x), 0) == InfixLoop(x, T2 + [Sym(COMMA)], 0)
    ensures ParseArgs(f, T2 + [Sym(COMMA)] + Emit(x), acc) == ParseArgs(f, T2, acc + [x])
  {
    HaltAtClose(x, T2 + [Sym(COMMA)], 0);
    ArgStep(f, x, T2 + [Sym(COMMA)], acc);
    PopLast(T2, Sym(COMMA));
  }

  /** One turn of the argument loop over a printed argument `x`, beneath
      which lies either the closing RPAREN or a COMMA. */
  lemma ArgStep(f: string, x: Ast, S: seq<Token>, acc: seq<Ast>)
    requires Next(S) == Some(Sym(RPAREN)) || Next(S) == Some(Sym(COMMA))
    requires ParseExpr(S + Emit(x), 0) == Ok(Parsed(x, S))
    ensures Next(S) == Some(Sym(RPAREN)) ==>
              ParseArgs(f, S + Emit(x), acc) == Ok(ParsedArgs(acc + [x], S))
    ensures Next(S) == Some(Sym(COMMA)) ==>
              ParseArgs(f, S + Emit(x), acc) == ParseArgs(f, Pop(S), acc + [x])
  {
    EmitStart(x);
    assert Last(S + Emit(x)) == Last(Emit(x));
  }

  /** The round trip: parsing a printed tree yields that tree, using up
      every token. */
  lemma ParseEmitted(a: Ast)
    ensures Parse(Emit(a)) == Ok(a)
  {
    ParseEmittedPrefix(a, [], 0);
    assert [] + Emit(a) == Emit(a);
  }

  /** The printer is injective: distinct trees print differently. */
  lemma EmitInjective(a: Ast, b: Ast)
    requires a != b
    ensures Emit(a) != Emit(b)
  {
    ParseEmitted(a);
    ParseEmitted(b);
  }

  /** `x op1 y op2 z` when op2 binds tighter: op2 takes `y`. */
  lemma PrecedenceTighter(op1: Operator, op2: Operator, x: real, y: real, z: real)
    requires BindingPower(OpToToken(op2)) > BindingPower(OpToToken(op1))
    ensures Parse([NUMBER(z), OpToToken(op2), NUMBER(y), OpToToken(op1), NUMBER(x)]) ==
              Ok(Binop(op1, Number(x), Binop(op2, Number(y), Number(z))))
  {
    var t1, t2 := OpToToken(op1), OpToToken(op2);
    var p1, p2 := BindingPower(t1), BindingPower(t2);
    OperatorsBind(op1);
    OperatorsBind(op2);
    OpToTokenInverse(op1, t1);
    OpToTokenInverse(op2, t2);
    var s1 := [NUMBER(z)];
    var s2 := s1 + [t2];
    var s3 := s2 + [NUMBER(y)];
    var s4 := s3 + [t1];
    var ts := s4 + [NUMBER(x)];
    PopLast([], NUMBER(z));
    PopLast(s1, t2);
    PopLast(s2, NUMBER(y));
    PopLast(s3, t1);
    PopLast(s4, NUMBER(x));
    assert ts == [NUMBER(z), t2, NUMBER(y), t1, NUMBER(x)];
    assert ParseExpr(s1, p2) == Ok(Parsed(Number(z), []));
    var inner := Binop(op2, Number(y), Number(z));
    assert InfixParse(OperatorParselet(op2, true), s1, Number(y)) == Ok(Parsed(inner, []));
    assert InfixLoop(Number(y), s2, p1) == Ok(Parsed(inner, []));
    assert ParseExpr(s3, p1) == Ok(Parsed(inner, []));
    var whole := Binop(op1, Number(x), inner);
    assert InfixParse(OperatorParselet(op1, true), s3, Number(x)) == Ok(Parsed(whole, []));
    assert InfixLoop(Number(x), s4, 0) == Ok(Parsed(whole, []));
    assert ParseExpr(ts, 0) == Ok(Parsed(whole, []));
  }

  /** `x op1 y op2 z` when op2 binds no tighter: op1 takes `y`, so every
      operator is left-associative (`1 - 2 - 3` is `(1 - 2) - 3`). */
  lemma PrecedenceLeft(op1: Operator, op2: Operator, x: real, y: real, z: real)
    requires BindingPower(OpToToken(op2)) <= BindingPower(OpToToken(op1))
    ensures Parse([NUMBER(z), OpToToken(op2), NUMBER(y), OpToToken(op1), NUMBER(x)]) ==
              Ok(Binop(op2, Binop(op1, Number(x), Number(y)), Number(z)))
  {
    var t1, t2 := OpToToken(op1), OpToToken(op2);
    var p1, p2 := BindingPower(t1), BindingPower(t2);
    OperatorsBind(op1);
    OperatorsBind(op2);
    OpToTokenInverse(op1, t1);
    OpToTokenInverse(op2, t2);
    var s1 := [NUMBER(z)];
    var s2 := s1 + [t2];
    var s3 := s2 + [NUMBER(y)];
    var s4 := s3 + [t1];
    var ts := s4 + [NUMBER(x)];
    PopLast([], NUMBER(z));
    PopLast(s1, t2);
    PopLast(s2, NUMBER(y));
    PopLast(s3, t1);
    PopLast(s4, NUMBER(x));
    assert ts == [NUMBER(z), t2, NUMBER(y), t1, NUMBER(x)];
    assert InfixLoop(Number(y), s2, p1) == Ok(Parsed(Number(y), s2));
    assert ParseExpr(s3, p1) == Ok(Parsed(Number(y), s2));
    var left := Binop(op1, Number(x), Number(y));
    assert InfixParse(OperatorParselet(op1, true), s3, Number(x)) == Ok(Parsed(left, s2));
    assert ParseExpr(s1, p2) == Ok(Parsed(Number(z), []));
    var whole := Binop(op2, left, Number(z));
    assert InfixParse(OperatorParselet(op2, true), s1, left) == Ok(Parsed(whole, []));
    assert InfixLoop(left, s2, 0) == Ok(Parsed(whole, []));
    assert InfixLoop(Number(x), s4, 0) == Ok(Parsed(whole, []));
    assert ParseExpr(ts, 0) == Ok(Parsed(whole, []));
  }

  /** `x op1 y op2 z` for numbers x, y, z: the operator with the greater
      binding power takes `y`; at equal power the left one does. */
  lemma Precedence(op1: Operator, op2: Operator, x: real, y: real, z: real)
    ensures var ts := [NUMBER(z), OpToToken(op2), NUMBER(y), OpToToken(op1), NUMBER(x)];
            Parse(ts) ==
              if BindingPower(OpToToken(op2)) > BindingPower(OpToToken(op1))
              then Ok(Binop(op1, Number(x), Binop(op2, Number(y), Number(z))))
              else Ok(Binop(op2, Binop(op1, Number(x), Number(y)), Number(z)))
  {
    if BindingPower(OpToToken(op2)) > BindingPower(OpToToken(op1)) {
      PrecedenceTighter(op1, op2, x, y, z);
    } else {
      PrecedenceLeft(op1, op2, x, y, z);
    }
  }

  /** `1 + 2 * 3` is `1 + (2 * 3)`. */
  lemma TimesBindsTighter()
    ensures Parse([NUMBER(3.0), Sym(TIMES), NUMBER(2.0), Sym(PLUS), NUMBER(1.0)]) ==
              Ok(Binop(Plus, Number(1.0), Binop(Times, Number(2.0), Number(3.0))))
  {
    Precedence(Plus, Times, 1.0, 2.0, 3.0);
  }

  /** `1 - 2 - 3` is `(1 - 2) - 3`. */
  lemma MinusIsLeftAssociative()
    ensures Parse([NUMBER(3.0), Sym(MINUS), NUMBER(2.0), Sym(MINUS), NUMBER(1.0)]) ==
              Ok(Binop(Minus, Binop(Minus, Number(1.0), Number(2.0)), Number(3.0)))
  {
    Precedence(Minus, Minus, 1.0, 2.0, 3.0);
  }

  /** `not x op y` is `not (x op y)`: the operand of `not` takes the whole
      binary expression. */
  lemma NotTakesWholeOperand(op: Operator, x: real, y: real)
    ensures Parse([NUMBER(y), OpToToken(op), NUMBER(x), Sym(NOT)]) ==
              Ok(Unop(Not, Binop(op, Number(x), Number(y))))
  {
    var t := OpToToken(op);
    var p := BindingPower(t);
    OperatorsBind(op);
    OpToTokenInverse(op, t);
    var s1 := [NUMBER(y)];
    var s2 := [NUMBER(y), t];
    var s3 := [NUMBER(y), t, NUMBER(x)];
    var ts := [NUMBER(y), t, NUMBER(x), Sym(NOT)];
    assert Pop(ts) == s3 && Pop(s3) == s2 && Pop(s2) == s1 && Pop(s1) == [];
    assert ParseExpr(s1, p) == Ok(Parsed(Number(y), []));
    var b := Binop(op, Number(x), Number(y));
    assert InfixParse(OperatorParselet(op, true), s1, Number(x)) == Ok(Parsed(b, []));
    assert InfixLoop(Number(x), s2, 0) == Ok(Parsed(b, []));
    assert ParseExpr(s3, 0) == Ok(Parsed(b, []));
    assert PrefixParse(UnaryOperatorParselet(Not), s3, Sym(NOT)) == Ok(Parsed(Unop(Not, b), []));
    assert ParseExpr(ts, 0) == Ok(Parsed(Unop(Not, b), []));
  }
}
