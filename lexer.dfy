/** The tokenizer as the source runs it: a loop over the text that keeps the
    offset, the line and the column, and appends one token per match. */
module Lexer {
  import opened Errors
  import opened Tokens
  import opened LexSpec

  /** Consumes `matched`, which starts at offset i: one line down and back to
      column 1 for every newline, one column right for any other character. */
  method Advance(matched: string, i: nat, line: nat, col: nat)
    returns (i': nat, line': nat, col': nat)
    ensures i' == i + |matched|
    ensures Pos(line', col') == PosAfter(Pos(line, col), matched)
  {
    line', col' := line, col;
    for k := 0 to |matched|
      invariant Pos(line', col') == PosAfter(Pos(line, col), matched[..k])
    {
      assert matched[..k + 1][..k] == matched[..k];
      if matched[k] == '\n' {
        line' := line' + 1;
        col' := 1;
      } else {
        col' := col' + 1;
      }
    }
    assert matched[..|matched|] == matched;
    i' := i + |matched|;
  }

  lemma PrependAppend(ts: seq<Token>, t: Token, r: Result<seq<Token>>)
    ensures Prepend(ts, Prepend([t], r)) == Prepend(ts + [t], r)
  {
    if r.Ok? {
      assert ts + ([t] + r.value) == (ts + [t]) + r.value;
    }
  }

  /** A match that emits no token keeps the loop invariant of Tokenize. */
  lemma SkipInvariant(whole: Result<seq<Token>>, tokens: seq<Token>, text: string,
                      i: nat, p: Pos, n: nat, i': nat, p': Pos)
    requires i < |text| && Scan(text, i) == Skip(n)
    requires i' == i + n && p' == PosAfter(p, text[i..i + n])
    requires whole == Prepend(tokens, LexFrom(text, i, p))
    ensures whole == Prepend(tokens, LexFrom(text, i', p'))
  {
  }

  /** Splits text into tokens, or stops at the first character no pattern
      matches.  At each offset, Scan tries the patterns in their fixed order;
      the loop emits the token it names (if any) at the current line and
      column, then advances over the matched characters. */
  method Tokenize(text: string) returns (r: Result<seq<Token>>)
    ensures r == Lex(text)
  {
    var tokens: seq<Token> := [];
    var i, line, col := 0, 1, 1;
    var n := |text|;
    ghost var whole := Lex(text);
    assert whole.Ok? ==> [] + whole.value == whole.value;
    while i < n
      invariant i <= n
      invariant whole == Prepend(tokens, LexFrom(text, i, Pos(line, col)))
      decreases n - i
    {
      ghost var i0, p0 := i, Pos(line, col);
      match Scan(text, i)
      case NoMatch =>
        // no pattern accepts this character
        return Err(Lexical(line, col, text[i]));
      case Skip(m) =>
        // blanks or a comment are skipped without a token
        i, line, col := Advance(text[i..i + m], i, line, col);
        SkipInvariant(whole, tokens, text, i0, p0, m, i, Pos(line, col));
      case Emit(kind, m) =>
        var t := Token(kind, TokenValue(kind, text[i..i + m]), line, col);
        i, line, col := Advance(text[i..i + m], i, line, col);
        EmitStep(text, i0, p0, kind, m);
        PrependAppend(tokens, t, LexFrom(text, i, Pos(line, col)));
        tokens := tokens + [t];
    }
    tokens := tokens + [Token(EOF, "", line, col)];
    r := Ok(tokens);
  }
}
