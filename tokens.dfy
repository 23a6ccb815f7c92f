/** Tokens of the expression language. The lexer (src/language/lex.ts) is not
    part of this model; the token shapes follow its tests: a `kind` and, for
    numbers, strings and identifiers, a `content`. */
module Tokens {

  /** Punctuation and operator token kinds, which carry no content. */
  datatype Symbol = PLUS | MINUS | TIMES | DIVIDE | EQUAL | NOT_EQUAL | GREATER
                  | GREATER_EQUAL | L_AND | L_OR | NOT | LPAREN | RPAREN | COMMA

  datatype Token =
    | NUMBER(number: real)
    | STRING(content: string)
    | IDENTIFIER(content: string)
    | Sym(symbol: Symbol)

  /** The `kind` field of a token. */
  datatype Kind = NumberKind | StringKind | IdentifierKind | SymbolKind(symbol: Symbol)

  function KindOf(t: Token): Kind {
    match t
    case NUMBER(_) => NumberKind
    case STRING(_) => StringKind
    case IDENTIFIER(_) => IdentifierKind
    case Sym(s) => SymbolKind(s)
  }

  /** The name the source uses for a kind, as it appears in error messages. */
  function KindName(k: Kind): string {
    match k
    case NumberKind => "NUMBER"
    case StringKind => "STRING"
    case IdentifierKind => "IDENTIFIER"
    case SymbolKind(s) =>
      match s
      case PLUS => "PLUS"
      case MINUS => "MINUS"
      case TIMES => "TIMES"
      case DIVIDE => "DIVIDE"
      case EQUAL => "EQUAL"
      case NOT_EQUAL => "NOT_EQUAL"
      case GREATER => "GREATER"
      case GREATER_EQUAL => "GREATER_EQUAL"
      case L_AND => "L_AND"
      case L_OR => "L_OR"
      case NOT => "NOT"
      case LPAREN => "LPAREN"
      case RPAREN => "RPAREN"
      case COMMA => "COMMA"
  }
}
