/** The lexer as a function: position tracking, the ordered choice of patterns
    at one offset, and the token sequence of a whole text. */
module LexSpec {
  import opened Errors
  import opened Tokens
  import opened Scanners

  // ---------------------------------------------------------------------------
  // Positions
  // ---------------------------------------------------------------------------

  datatype Pos = Pos(line: nat, col: nat)

  /** Line 1, column 1: where the text starts. */
  const Start := Pos(1, 1)

  /** a comes strictly before b: on an earlier line, or further left on the
      same line. */
  predicate Before(a: Pos, b: Pos) {
    a.line < b.line || (a.line == b.line && a.col < b.col)
  }

  /** A newline moves to column 1 of the next line; any other character moves
      one column to the right. */
  function NextPos(p: Pos, c: char): (r: Pos)
    ensures Before(p, r)
    ensures r.line != p.line <==> c == '\n'
  {
    if c == '\n' then Pos(p.line + 1, 1) else Pos(p.line, p.col + 1)
  }

  /** The position reached after consuming s, one character at a time. */
  function PosAfter(p: Pos, s: string): Pos {
    if s == [] then p else NextPos(PosAfter(p, s[..|s| - 1]), s[|s| - 1])
  }

  /** Consuming text never moves back, and consuming at least one character
      moves strictly forward. */
  lemma {:induction false} PosAfterForward(p: Pos, s: string)
    ensures p.line <= PosAfter(p, s).line
    ensures s != [] ==> Before(p, PosAfter(p, s))
  {
    if s != [] {
      PosAfterForward(p, s[..|s| - 1]);
    }
  }

  // ---------------------------------------------------------------------------
  // One step of the scan
  // ---------------------------------------------------------------------------

  /** What the patterns decide at one offset: nothing matches, a match that
      produces no token, or a match that produces a token of some kind. */
  datatype Lexeme = NoMatch | Skip(len: nat) | Emit(kind: Kind, len: nat)

  /** The lexeme shape each token kind is emitted for. */
  ghost predicate Shaped(kind: Kind, s: string) {
    match kind
    case NL => s == "\n"
    case STRING => IsStringLexeme(s)
    case DECIMAL => IsDecimal(s)
    case INT => IsInteger(s)
    case ID => IsWord(s) && s !in RESERVED
    case KW => IsWord(s) && s in RESERVED
    case EOF => false
    case _ => |s| == 1 && SymbolKind(s[0]) == Some(kind)
  }

  /** The patterns, tried in this order: newline, blanks, comment, symbol,
      string, decimal, integer, identifier or reserved word.  The decimal
      pattern comes before the integer one, so "12.5" is one DECIMAL. */
  function Scan(text: string, i: nat): (r: Lexeme)
    requires i < |text|
    ensures !r.NoMatch? ==> 0 < r.len && i + r.len <= |text|
  {
    if text[i] == '\n' then Emit(NL, 1)
    else if BlankLen(text, i) > 0 then Skip(BlankLen(text, i))
    else if CommentLen(text, i) > 0 then Skip(CommentLen(text, i))
    else if SymbolKind(text[i]).Some? then Emit(SymbolKind(text[i]).value, 1)
    else if StringLen(text, i) > 0 then Emit(STRING, StringLen(text, i))
    else if DecimalLen(text, i) > 0 then Emit(DECIMAL, DecimalLen(text, i))
    else if IntegerLen(text, i) > 0 then Emit(INT, IntegerLen(text, i))
    else if WordLen(text, i) > 0 then
      var n := WordLen(text, i);
      Emit(if text[i..i + n] in RESERVED then KW else ID, n)
    else NoMatch
  }

  /** Every match Scan reports has the shape of its pattern: skipped text is
      a run of blanks or a comment, and an emitted lexeme has the shape of
      its token kind (an identifier-shaped lexeme is KW exactly when it is a
      reserved word). */
  lemma ScanShape(text: string, i: nat)
    requires i < |text|
    ensures var r := Scan(text, i);
      (r.Skip? ==> IsBlankRun(text[i..i + r.len]) || IsComment(text[i..i + r.len])) &&
      (r.Emit? ==> Shaped(r.kind, text[i..i + r.len]))
  {
    BlankMatch(text, i);
    CommentMatch(text, i);
    StringMatch(text, i);
    DecimalMatch(text, i);
    IntegerMatch(text, i);
    WordMatch(text, i);
    if text[i] == '\n' {
      assert text[i..i + 1] == "\n";
    }
  }

  /** The token value: the lexeme itself, except for NL, whose value is the
      two characters backslash and 'n'. */
  function TokenValue(kind: Kind, lexeme: string): string {
    if kind == NL then "\\n" else lexeme
  }

  /** Puts ts in front of the tokens of a successful result. */
  function Prepend(ts: seq<Token>, r: Result<seq<Token>>): Result<seq<Token>> {
    match r
    case Ok(rest) => Ok(ts + rest)
    case Err(e) => Err(e)
  }

  // ---------------------------------------------------------------------------
  // The whole scan
  // ---------------------------------------------------------------------------

  /** The tokens of text[i..], scanning from position p; EOF closes the list. */
  function LexFrom(text: string, i: nat, p: Pos): (r: Result<seq<Token>>)
    requires i <= |text|
    decreases |text| - i
  {
    if i == |text| then Ok([Token(EOF, "", p.line, p.col)])
    else match Scan(text, i)
      case NoMatch => Err(Lexical(p.line, p.col, text[i]))
      case Skip(n) => LexFrom(text, i + n, PosAfter(p, text[i..i + n]))
      case Emit(kind, n) =>
        var t := Token(kind, TokenValue(kind, text[i..i + n]), p.line, p.col);
        Prepend([t], LexFrom(text, i + n, PosAfter(p, text[i..i + n])))
  }

  /** LexFrom after a match that produces no token. */
  lemma SkipStep(text: string, i: nat, p: Pos)
    requires i < |text| && Scan(text, i).Skip?
    ensures var n := Scan(text, i).len;
      LexFrom(text, i, p) == LexFrom(text, i + n, PosAfter(p, text[i..i + n]))
  {
  }

  /** LexFrom after a match that produces a token. */
  lemma EmitStep(text: string, i: nat, p: Pos, kind: Kind, n: nat)
    requires i < |text| && Scan(text, i) == Emit(kind, n)
    ensures LexFrom(text, i, p) ==
      Prepend([Token(kind, TokenValue(kind, text[i..i + n]), p.line, p.col)],
              LexFrom(text, i + n, PosAfter(p, text[i..i + n])))
  {
  }

  /** The tokenizer's result on a whole text. */
  function Lex(text: string): (r: Result<seq<Token>>)
    ensures r.Ok? ==> 0 < |r.value| <= |text| + 1
  {
    LexFromLength(text, 0, Start);
    LexFrom(text, 0, Start)
  }

  /** Every token but EOF stands for at least one character: a scan from i
      gives at most one token per remaining character, plus EOF. */
  lemma {:induction false} LexFromLength(text: string, i: nat, p: Pos)
    requires i <= |text|
    ensures var r := LexFrom(text, i, p);
      r.Ok? ==> 0 < |r.value| <= |text| - i + 1
    decreases |text| - i
  {
    if i < |text| {
      var m := Scan(text, i);
      if !m.NoMatch? {
        LexFromLength(text, i + m.len, PosAfter(p, text[i..i + m.len]));
      }
    }
  }
}
