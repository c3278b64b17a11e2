/** Tokens, the reserved words and the table of one-character symbols. */
module Tokens {
  import opened Errors

  /** The token types; their names are the type strings the lexer emits. */
  datatype Kind =
    | NL | LBRACE | RBRACE | LPAREN | RPAREN | LBRACKET | RBRACKET
    | COLON | COMMA | SEMI | STRING | DECIMAL | INT | ID | KW | EOF

  /** A token with the line and column of its first character. */
  datatype Token = Token(kind: Kind, value: string, line: nat, col: nat)

  /** The closed set of reserved words; matching is exact and case-sensitive. */
  const RESERVED: set<string> := {
    "CARRUSEL", "PRODUCTO", "ESPACIOS", "CAPACIDAD",
    "PRECIO", "MINIMO", "MAXIMO", "CRITICIDAD",
    "ALTA", "MEDIA", "BAJA",
    "SIMULAR", "TRANSACCIONES",
    "RETIRAR", "RESURTIR", "CONTAR",
    "ESTADO", "ESTADISTICAS", "REPORTE"
  }

  /** The symbol table: each of `{ } ( ) [ ] : , ;` has its own token type. */
  function SymbolKind(c: char): Option<Kind> {
    match c
    case '{' => Some(LBRACE)
    case '}' => Some(RBRACE)
    case '(' => Some(LPAREN)
    case ')' => Some(RPAREN)
    case '[' => Some(LBRACKET)
    case ']' => Some(RBRACKET)
    case ':' => Some(COLON)
    case ',' => Some(COMMA)
    case ';' => Some(SEMI)
    case _ => None
  }

  /** The shape the parser relies on: a non-empty stream whose last token is EOF. */
  predicate EndsWithEof(ts: seq<Token>) {
    |ts| > 0 && ts[|ts| - 1].kind == EOF
  }
}
