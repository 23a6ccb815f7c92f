/** The expression language's trees and runtime values (src/language/ast.ts),
    with the `Builtin` call node that the parselets build. */
module Syntax {
  import opened Wrappers

  /** The ten binary operators, in the order the source lists them. */
  datatype Operator = Plus | Minus | Times | Divide | Equal | NotEqual
                    | Greater | GreaterEqual | And | Or

  /** `"not"` is the only unary operator. */
  datatype UnaryOperator = Not

  /** An expression tree. `Builtin(name, args)` is the call node `name(a, b, ...)`. */
  datatype Ast =
    | Binop(op: Operator, op1: Ast, op2: Ast)
    | Unop(uop: UnaryOperator, op1: Ast)
    | Identifier(content: string)
    | Number(number: real)
    | String(content: string)
    | Builtin(name: string, args: seq<Ast>)

  /** A runtime value; there is no missing-value case. The source's `String`
      kind is `Str` here, as `String` already names a tree node. */
  datatype Value = Num(num: real) | Bool(truth: bool) | Str(text: string)

  /** The source text of each operator. */
  function Symbol(op: Operator): string {
    match op
    case Plus => "+"
    case Minus => "-"
    case Times => "*"
    case Divide => "/"
    case Equal => "="
    case NotEqual => "!="
    case Greater => ">"
    case GreaterEqual => ">="
    case And => "&&"
    case Or => "||"
  }

  /** The operator a symbol denotes, if any. */
  function OperatorOf(s: string): Option<Operator> {
    if s == "+" then Some(Plus)
    else if s == "-" then Some(Minus)
    else if s == "*" then Some(Times)
    else if s == "/" then Some(Divide)
    else if s == "=" then Some(Equal)
    else if s == "!=" then Some(NotEqual)
    else if s == ">" then Some(Greater)
    else if s == ">=" then Some(GreaterEqual)
    else if s == "&&" then Some(And)
    else if s == "||" then Some(Or)
    else None
  }

  /** `Operator` is exactly the ten symbols: every operator's symbol denotes
      it, and every symbol that denotes an operator is that operator's. */
  lemma OperatorSymbols(op: Operator, s: string)
    ensures OperatorOf(Symbol(op)) == Some(op)
    ensures OperatorOf(s).Some? ==> Symbol(OperatorOf(s).value) == s
  {
  }

  /** `"=="` (used by one interpreter test) is not an operator of the language. */
  lemma DoubleEqualIsNotAnOperator()
    ensures OperatorOf("==") == None
  {
  }

  function UnarySymbol(op: UnaryOperator): string {
    match op
    case Not => "not"
  }

  function UnaryOperatorOf(s: string): Option<UnaryOperator> {
    if s == "not" then Some(Not) else None
  }

  /** `"not"` is the only unary operator. */
  lemma UnaryOperatorSymbols(op: UnaryOperator, s: string)
    ensures UnaryOperatorOf(UnarySymbol(op)) == Some(op)
    ensures UnaryOperatorOf(s).Some? <==> s == "not"
  {
  }
}
