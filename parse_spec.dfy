/** The parselets of src/language/parselets.ts as functions over a token
    stack, together with the minimal Pratt driver they call into
    (`parseExpr`, `getBindingPower`; src/language/parse.ts is not part of this
    model). The stack is a `seq<Token>` whose NEXT token is its LAST element,
    as the source pops its token array from the end. Every function returns
    the tokens it leaves behind. */
module ParseSpec {
  import opened Wrappers
  import opened Syntax
  import opened Tokens

  /** The prefix parselets, one per kind of expression start. */
  datatype PrefixParselet =
    | NumberParselet
    | StringParselet
    | IdentifierParselet
    | ParenthesisParselet
    | UnaryOperatorParselet(op: UnaryOperator)
    | BuiltinParselet

  /** The one infix parselet, parameterised like the source's class. */
  datatype InfixParselet = OperatorParselet(op: Operator, isLeftAssociative: bool)

  datatype Consumed = Consumed(token: Token, rest: seq<Token>)
  datatype Parsed = Parsed(ast: Ast, rest: seq<Token>)
  datatype ParsedArgs = ParsedArgs(args: seq<Ast>, rest: seq<Token>)

  /** The token a peek at `tokens[tokens.length - 1]` sees. */
  function Next(ts: seq<Token>): Option<Token> {
    if ts == [] then None else Some(ts[|ts| - 1])
  }

  function Last(ts: seq<Token>): Token
    requires ts != []
  {
    ts[|ts| - 1]
  }

  /** The stack after `tokens.pop()`. */
  function Pop(ts: seq<Token>): seq<Token>
    requires ts != []
  {
    ts[..|ts| - 1]
  }

  const UndefinedKindError := "Cannot read properties of undefined (reading 'kind')"

  /** expect_consume: pop the next token and return it if it has the given
      kind; an empty stack or another kind is an error. A missing or empty
      message falls back to the default one. */
  function ExpectConsume(ts: seq<Token>, kind: Kind, errorMsg: Option<string>): (r: Result<Consumed>)
    ensures r.Ok? <==> ts != [] && KindOf(Last(ts)) == kind
    ensures r.Ok? ==> r.value.rest + [r.value.token] == ts && KindOf(r.value.token) == kind
    ensures r.Err? && errorMsg.Some? && errorMsg.value != "" ==> r.error == errorMsg.value
  {
    var msg := if errorMsg.Some? && errorMsg.value != "" then errorMsg.value
               else "Unexpected token, expected " + KindName(kind);
    if ts != [] && KindOf(Last(ts)) == kind then Ok(Consumed(Last(ts), Pop(ts))) else Err(msg)
  }

  /** opToToken: the token of each operator. */
  function OpToToken(op: Operator): Token {
    match op
    case Plus => Sym(PLUS)
    case Minus => Sym(MINUS)
    case Times => Sym(TIMES)
    case Divide => Sym(DIVIDE)
    case Equal => Sym(EQUAL)
    case NotEqual => Sym(NOT_EQUAL)
    case Greater => Sym(GREATER)
    case GreaterEqual => Sym(GREATER_EQUAL)
    case And => Sym(L_AND)
    case Or => Sym(L_OR)
  }

  /** The operator an infix token stands for. */
  function TokenOperator(t: Token): Option<Operator> {
    match t
    case Sym(s) =>
      (match s
       case PLUS => Some(Plus)
       case MINUS => Some(Minus)
       case TIMES => Some(Times)
       case DIVIDE => Some(Divide)
       case EQUAL => Some(Equal)
       case NOT_EQUAL => Some(NotEqual)
       case GREATER => Some(Greater)
       case GREATER_EQUAL => Some(GreaterEqual)
       case L_AND => Some(And)
       case L_OR => Some(Or)
       case _ => None)
    case _ => None
  }

  /** opToToken is total and injective, and TokenOperator inverts it: the
      operators correspond one to one with the ten operator tokens. */
  lemma OpToTokenInverse(op: Operator, t: Token)
    ensures TokenOperator(OpToToken(op)) == Some(op)
    ensures TokenOperator(t).Some? ==> OpToToken(TokenOperator(t).value) == t
  {
  }

  lemma OpToTokenInjective(op1: Operator, op2: Operator)
    requires op1 != op2
    ensures OpToToken(op1) != OpToToken(op2)
  {
    OpToTokenInverse(op1, OpToToken(op1));
    OpToTokenInverse(op2, OpToToken(op2));
  }

  /** getBindingPower: or < and < equality < relational < additive <
      multiplicative; every token without an infix parselet has power 0. */
  function BindingPower(t: Token): int {
    match TokenOperator(t)
    case None => 0
    case Some(op) =>
      match op
      case Or => 1
      case And => 2
      case Equal => 3
      case NotEqual => 3
      case Greater => 4
      case GreaterEqual => 4
      case Plus => 5
      case Minus => 5
      case Times => 6
      case Divide => 6
  }

  /** The prefix parselet registered for a token. An identifier directly
      followed by LPAREN starts a built-in call. */
  function PrefixParseletFor(t: Token, next: Option<Token>): Option<PrefixParselet> {
    match t
    case NUMBER(_) => Some(NumberParselet)
    case STRING(_) => Some(StringParselet)
    case IDENTIFIER(_) => if next == Some(Sym(LPAREN)) then Some(BuiltinParselet) else Some(IdentifierParselet)
    case Sym(s) =>
      if s == LPAREN then Some(ParenthesisParselet)
      else if s == NOT then Some(UnaryOperatorParselet(Not))
      else None
  }

  /** Every binary operator is registered left-associative. */
  function InfixParseletFor(t: Token): Option<InfixParselet> {
    match TokenOperator(t)
    case None => None
    case Some(op) => Some(OperatorParselet(op, true))
  }

  /** The infix loop of parseExpr halts on `ts` at minimum power `min`: the
      stack is empty, or its next token has no infix parselet or too little
      binding power. */
  predicate Halts(ts: seq<Token>, min: int) {
    ts == [] || InfixParseletFor(Last(ts)).None? || BindingPower(Last(ts)) <= min
  }

  /** parseExpr: pop a token, run its prefix parselet, then keep handing the
      tree to infix parselets while the next token has one whose binding
      power exceeds `min`. */
  function ParseExpr(ts: seq<Token>, min: int): (r: Result<Parsed>)
    decreases |ts|, 0
    ensures r.Ok? ==> |r.value.rest| < |ts| && Halts(r.value.rest, min)
  {
    if ts == [] then Err("Unexpected end of input")
    else
      var t := Last(ts);
      var rest := Pop(ts);
      match PrefixParseletFor(t, Next(rest))
      case None => Err("Unexpected token in prefix position")
      case Some(p) =>
        var left :- PrefixParse(p, rest, t);
        InfixLoop(left.ast, left.rest, min)
  }

  function InfixLoop(left: Ast, ts: seq<Token>, min: int): (r: Result<Parsed>)
    decreases |ts|, 1
    ensures r.Ok? ==> |r.value.rest| <= |ts| && Halts(r.value.rest, min)
  {
    if ts == [] then Ok(Parsed(left, ts))
    else
      match InfixParseletFor(Last(ts))
      case None => Ok(Parsed(left, ts))
      case Some(ip) =>
        if BindingPower(Last(ts)) > min then
          var next :- InfixParse(ip, Pop(ts), left);
          InfixLoop(next.ast, next.rest, min)
        else
          Ok(Parsed(left, ts))
  }

  /** A prefix parselet, given the stack after its token was popped. */
  function PrefixParse(p: PrefixParselet, ts: seq<Token>, current: Token): (r: Result<Parsed>)
    decreases |ts|, 2
    ensures r.Ok? ==> |r.value.rest| <= |ts|
  {
    match p
    case NumberParselet =>
      if current.NUMBER? then Ok(Parsed(Number(current.number), ts))
      else Err("Tried to use NumberParselet with non-number token")
    case StringParselet =>
      if current.STRING? then Ok(Parsed(String(current.content), ts))
      else Err("Tried to use StringParselet with non-string token")
    case IdentifierParselet =>
      if current.IDENTIFIER? then Ok(Parsed(Identifier(current.content), ts))
      else Err("Tried to use IdentifierParselet with non-number token")
    case ParenthesisParselet =>
      var expr :- ParseExpr(ts, 0);
      var close :- ExpectConsume(expr.rest, SymbolKind(RPAREN), Some("Expected right paren to close expression"));
      Ok(Parsed(expr.ast, close.rest))
    case UnaryOperatorParselet(op) =>
      var expr :- ParseExpr(ts, 0);
      Ok(Parsed(Unop(op, expr.ast), expr.rest))
    case BuiltinParselet => BuiltinParse(ts, current)
  }

  /** BuiltinParselet: the name, LPAREN, the argument loop, RPAREN. */
  function BuiltinParse(ts: seq<Token>, current: Token): (r: Result<Parsed>)
    decreases |ts|, 1
    ensures r.Ok? ==> |r.value.rest| <= |ts|
  {
    if !current.IDENTIFIER? then Err("Tried to use BuiltinParselet on non-identifier")
    else
      var name := current.content;
      var open :- ExpectConsume(ts, SymbolKind(LPAREN), Some("Expected parenthesis after built-in \"" + name + "\""));
      var list :- ParseArgs(name, open.rest, []);
      var close :- ExpectConsume(list.rest, SymbolKind(RPAREN),
                                 Some("Expected closing parenthesis after arguments to built-in \"" + name + "\""));
      Ok(Parsed(Builtin(name, list.args), close.rest))
  }

  /** The argument loop of BuiltinParselet: peek; stop at RPAREN; otherwise
      parse an argument at power 0 and continue only past a COMMA. `args` are
      the arguments gathered so far. */
  function ParseArgs(name: string, ts: seq<Token>, args: seq<Ast>): (r: Result<ParsedArgs>)
    decreases |ts|, 1
    ensures r.Ok? ==> |r.value.rest| <= |ts|
  {
    if ts == [] then Err("Unexpected end of argument list for built-in \"" + name + "\"")
    else if Last(ts) == Sym(RPAREN) then Ok(ParsedArgs(args, ts))
    else
      var arg :- ParseExpr(ts, 0);
      if arg.rest == [] then Err(UndefinedKindError)
      else if Last(arg.rest) != Sym(COMMA) then Ok(ParsedArgs(args + [arg.ast], arg.rest))
      else ParseArgs(name, Pop(arg.rest), args + [arg.ast])
  }

  /** OperatorParselet: parse the right operand at the operator's power
      (left-associative) or one below it, and build the Binop. */
  function InfixParse(p: InfixParselet, ts: seq<Token>, left: Ast): (r: Result<Parsed>)
    decreases |ts|, 1
    ensures r.Ok? ==> |r.value.rest| < |ts|
  {
    var power := BindingPower(OpToToken(p.op));
    var right :- ParseExpr(ts, if p.isLeftAssociative then power else power - 1);
    Ok(Parsed(Binop(p.op, left, right.ast), right.rest))
  }

  /** A whole formula: one expression that uses up every token. */
  function Parse(ts: seq<Token>): Result<Ast> {
    var p :- ParseExpr(ts, 0);
    if p.rest != [] then Err("Unexpected tokens after expression") else Ok(p.ast)
  }
}
