/** What the tokenizer guarantees about its result: where EOF is, where
    every token starts, which lexemes become which tokens, how newlines are
    accounted for, and where it stops with a lexical error. */
module LexProps {
  import opened Errors
  import opened Tokens
  import opened Scanners
  import opened LexSpec

  // ---------------------------------------------------------------------------
  // Positions
  // ---------------------------------------------------------------------------

  /** Advancing over a + b is advancing over a, then over b. */
  lemma {:induction false} PosAfterConcat(p: Pos, a: string, b: string)
    ensures PosAfter(p, a + b) == PosAfter(PosAfter(p, a), b)
    decreases |b|
  {
    if b == [] {
      assert a + b == a;
    } else {
      var b' := b[..|b| - 1];
      assert (a + b)[..|a + b| - 1] == a + b';
      PosAfterConcat(p, a, b');
    }
  }

  /** The number of newline characters in s. */
  function Newlines(s: string): nat {
    if s == [] then 0 else Newlines(s[..|s| - 1]) + (if s[|s| - 1] == '\n' then 1 else 0)
  }

  lemma {:induction false} NewlinesConcat(a: string, b: string)
    ensures Newlines(a + b) == Newlines(a) + Newlines(b)
    decreases |b|
  {
    if b == [] {
      assert a + b == a;
    } else {
      var b' := b[..|b| - 1];
      assert (a + b)[..|a + b| - 1] == a + b';
      NewlinesConcat(a, b');
    }
  }

  /** The line advances once per newline; the column restarts at 1 after the
      last newline and otherwise grows by one per character. */
  lemma {:induction false} PosAfterCounts(p: Pos, s: string)
    ensures PosAfter(p, s).line == p.line + Newlines(s)
    ensures Newlines(s) == 0 ==> PosAfter(p, s).col == p.col + |s|
    ensures Newlines(s) > 0 ==> PosAfter(p, s).col >= 1
    decreases |s|
  {
    if s != [] {
      PosAfterCounts(p, s[..|s| - 1]);
    }
  }

  // ---------------------------------------------------------------------------
  // EOF
  // ---------------------------------------------------------------------------

  /** Scan never reports an EOF token: EOF is not a pattern. */
  lemma ScanNeverEof(text: string, i: nat)
    requires i < |text|
    ensures Scan(text, i).Emit? ==> Scan(text, i).kind != EOF
  {
  }

  /** Scan emits NL exactly at a newline character, and for that one
      character only. */
  lemma ScanNewlineToken(text: string, i: nat)
    requires i < |text|
    ensures Scan(text, i) == Emit(NL, 1) <==> text[i] == '\n'
    ensures Scan(text, i).Emit? && Scan(text, i).kind == NL ==> Scan(text, i).len == 1
  {
  }

  /** The end reached from after a match of length n is the end reached
      from before it. */
  lemma EofShift(text: string, i: nat, n: nat, p: Pos, r: Result<seq<Token>>)
    requires i + n <= |text| && EofLast(r, PosAfter(PosAfter(p, text[i..i + n]), text[i + n..]))
    ensures EofLast(r, PosAfter(p, text[i..]))
  {
    assert text[i..] == text[i..i + n] + text[i + n..];
    PosAfterConcat(p, text[i..i + n], text[i + n..]);
  }

  /** A successful result ends with exactly one EOF token, placed at end. */
  ghost predicate EofLast(r: Result<seq<Token>>, end: Pos) {
    r.Ok? ==>
      |r.value| > 0 && r.value[|r.value| - 1] == Token(EOF, "", end.line, end.col) &&
      forall k :: 0 <= k < |r.value| - 1 ==> r.value[k].kind != EOF
  }

  lemma PrependEofLast(t: Token, r: Result<seq<Token>>, end: Pos)
    requires t.kind != EOF && EofLast(r, end)
    ensures EofLast(Prepend([t], r), end)
  {
    if r.Ok? {
      var all := [t] + r.value;
      assert forall k :: 0 < k < |all| ==> all[k] == r.value[k - 1];
    }
  }

  /** The tokens of text[i..] end with one EOF token at the position reached
      after the whole rest of the text, and contain no other EOF. */
  lemma {:induction false} LexFromEof(text: string, i: nat, p: Pos)
    requires i <= |text|
    ensures EofLast(LexFrom(text, i, p), PosAfter(p, text[i..]))
    decreases |text| - i
  {
    if i == |text| {
      assert text[i..] == [];
    } else {
      var sc := Scan(text, i);
      if !sc.NoMatch? {
        var n := sc.len;
        assert 0 < n && i + n <= |text|;
        var q := PosAfter(p, text[i..i + n]);
        LexFromEof(text, i + n, q);
        EofStep(text, i, p);
      }
    }
  }

  /** A match keeps EOF last, at the end position counted from before it. */
  lemma EofStep(text: string, i: nat, p: Pos)
    requires i < |text| && !Scan(text, i).NoMatch?
    requires var n := Scan(text, i).len; var q := PosAfter(p, text[i..i + n]);
      EofLast(LexFrom(text, i + n, q), PosAfter(q, text[i + n..]))
    ensures EofLast(LexFrom(text, i, p), PosAfter(p, text[i..]))
  {
    var sc := Scan(text, i);
    var n := sc.len;
    var rest := LexFrom(text, i + n, PosAfter(p, text[i..i + n]));
    EofShift(text, i, n, p, rest);
    if sc.Skip? {
      SkipStep(text, i, p);
    } else {
      EmitStep(text, i, p, sc.kind, n);
      ScanNeverEof(text, i);
      PrependEofLast(Token(sc.kind, TokenValue(sc.kind, text[i..i + n]), p.line, p.col),
                     rest, PosAfter(p, text[i..]));
    }
  }

  /** `tokenize` ends its list with exactly one EOF token, placed at the line
      and column reached after the whole text: the line is one more than the
      number of newlines in the text. */
  lemma LexEof(text: string)
    ensures var r := Lex(text);
      var end := PosAfter(Start, text);
      r.Ok? ==>
        EndsWithEof(r.value) && r.value[|r.value| - 1] == Token(EOF, "", end.line, end.col) &&
        end.line == 1 + Newlines(text) &&
        forall k :: 0 <= k < |r.value| - 1 ==> r.value[k].kind != EOF
  {
    LexFromEof(text, 0, Start);
    assert text[0..] == text;
    PosAfterCounts(Start, text);
  }

  // ---------------------------------------------------------------------------
  // Token shapes
  // ---------------------------------------------------------------------------

  /** A token as the tokenizer makes it: NL carries the two characters `\n`,
      EOF the empty string, and every other kind its lexeme, which has the
      shape of that kind's pattern. */
  ghost predicate WellShaped(t: Token) {
    match t.kind
    case NL => t.value == "\\n"
    case EOF => t.value == ""
    case _ => Shaped(t.kind, t.value)
  }

  /** Every token of a successful result is well shaped. */
  ghost predicate AllShaped(r: Result<seq<Token>>) {
    r.Ok? ==> forall k :: 0 <= k < |r.value| ==> WellShaped(r.value[k])
  }

  lemma PrependShaped(t: Token, r: Result<seq<Token>>)
    requires WellShaped(t) && AllShaped(r)
    ensures AllShaped(Prepend([t], r))
  {
    if r.Ok? {
      var all := [t] + r.value;
      assert forall k :: 0 < k < |all| ==> all[k] == r.value[k - 1];
    }
  }

  /** The token emitted at offset i is well shaped. */
  lemma EmitShaped(text: string, i: nat, p: Pos, kind: Kind, n: nat)
    requires i < |text| && Scan(text, i) == Emit(kind, n)
    ensures WellShaped(Token(kind, TokenValue(kind, text[i..i + n]), p.line, p.col))
  {
    ScanShape(text, i);
    ScanNeverEof(text, i);
  }

  /** Every token of a successful scan is well shaped: in particular an ID
      is never a reserved word, a KW always is, an INT is digits and a
      DECIMAL is digits, a dot and digits. */
  lemma {:induction false} LexFromShapes(text: string, i: nat, p: Pos)
    requires i <= |text|
    ensures AllShaped(LexFrom(text, i, p))
    decreases |text| - i
  {
    if i < |text| {
      var sc := Scan(text, i);
      if !sc.NoMatch? {
        var n := sc.len;
        assert 0 < n && i + n <= |text|;
        LexFromShapes(text, i + n, PosAfter(p, text[i..i + n]));
        ShapedStep(text, i, p);
      }
    }
  }

  /** A match keeps every token of the rest of the scan well shaped. */
  lemma ShapedStep(text: string, i: nat, p: Pos)
    requires i < |text| && !Scan(text, i).NoMatch?
    requires var n := Scan(text, i).len;
      AllShaped(LexFrom(text, i + n, PosAfter(p, text[i..i + n])))
    ensures AllShaped(LexFrom(text, i, p))
  {
    var sc := Scan(text, i);
    var n := sc.len;
    if sc.Skip? {
      SkipStep(text, i, p);
    } else {
      EmitStep(text, i, p, sc.kind, n);
      EmitShaped(text, i, p, sc.kind, n);
      PrependShaped(Token(sc.kind, TokenValue(sc.kind, text[i..i + n]), p.line, p.col),
                    LexFrom(text, i + n, PosAfter(p, text[i..i + n])));
    }
  }

  lemma LexShapes(text: string)
    ensures var r := Lex(text);
      r.Ok? ==> forall k :: 0 <= k < |r.value| ==> WellShaped(r.value[k])
  {
    LexFromShapes(text, 0, Start);
  }

  // ---------------------------------------------------------------------------
  // Where tokens come from
  // ---------------------------------------------------------------------------

  /** t stands for text[i..] at some offset j whose line and column it
      carries, reading on from position p at offset i: NL for a newline
      character, EOF for the end of the text, and any other token for the
      characters of its value. */
  ghost predicate LocatedFrom(text: string, i: nat, p: Pos, t: Token)
    requires i <= |text|
  {
    exists j: nat :: i <= j <= |text| && PosAfter(p, text[i..j]) == Pos(t.line, t.col) && StandsAt(text, j, t)
  }

  /** What the text holds at offset j for t to stand there. */
  predicate StandsAt(text: string, j: nat, t: Token)
    requires j <= |text|
  {
    match t.kind
    case EOF => j == |text|
    case NL => j < |text| && text[j] == '\n'
    case _ => j + |t.value| <= |text| && text[j..j + |t.value|] == t.value
  }

  /** Every token of ts is located from (i, p), stated token by token. */
  ghost predicate LocatedSeq(text: string, i: nat, p: Pos, ts: seq<Token>)
    requires i <= |text|
    decreases |ts|
  {
    |ts| == 0 || (LocatedFrom(text, i, p, ts[0]) && LocatedSeq(text, i, p, ts[1..]))
  }

  ghost predicate AllLocated(text: string, i: nat, p: Pos, r: Result<seq<Token>>)
    requires i <= |text|
  {
    r.Ok? ==> LocatedSeq(text, i, p, r.value)
  }

  /** A token located after a match of length n is also located from before it. */
  lemma LocatedShift(text: string, i: nat, n: nat, p: Pos, t: Token)
    requires i + n <= |text| && LocatedFrom(text, i + n, PosAfter(p, text[i..i + n]), t)
    ensures LocatedFrom(text, i, p, t)
  {
    var q := PosAfter(p, text[i..i + n]);
    var j: nat :| i + n <= j <= |text| && PosAfter(q, text[i + n..j]) == Pos(t.line, t.col) && StandsAt(text, j, t);
    assert text[i..j] == text[i..i + n] + text[i + n..j];
    PosAfterConcat(p, text[i..i + n], text[i + n..j]);
  }

  lemma {:induction false} LocatedSeqShift(text: string, i: nat, n: nat, p: Pos, ts: seq<Token>)
    requires i + n <= |text| && LocatedSeq(text, i + n, PosAfter(p, text[i..i + n]), ts)
    ensures LocatedSeq(text, i, p, ts)
    decreases |ts|
  {
    if |ts| > 0 {
      LocatedShift(text, i, n, p, ts[0]);
      LocatedSeqShift(text, i, n, p, ts[1..]);
    }
  }

  lemma LocatedResultShift(text: string, i: nat, n: nat, p: Pos, r: Result<seq<Token>>)
    requires i + n <= |text| && AllLocated(text, i + n, PosAfter(p, text[i..i + n]), r)
    ensures AllLocated(text, i, p, r)
  {
    if r.Ok? {
      LocatedSeqShift(text, i, n, p, r.value);
    }
  }

  lemma PrependLocated(text: string, i: nat, p: Pos, t: Token, r: Result<seq<Token>>)
    requires i <= |text| && LocatedFrom(text, i, p, t) && AllLocated(text, i, p, r)
    ensures AllLocated(text, i, p, Prepend([t], r))
  {
    if r.Ok? {
      assert ([t] + r.value)[1..] == r.value;
    }
  }

  /** The token emitted at offset i is located there. */
  lemma EmitLocated(text: string, i: nat, p: Pos, kind: Kind, n: nat)
    requires i < |text| && Scan(text, i) == Emit(kind, n)
    ensures LocatedFrom(text, i, p, Token(kind, TokenValue(kind, text[i..i + n]), p.line, p.col))
  {
    ScanNeverEof(text, i);
    ScanNewlineToken(text, i);
    var t := Token(kind, TokenValue(kind, text[i..i + n]), p.line, p.col);
    assert text[i..i] == [];
    if kind == NL {
      assert text[i] == '\n';
    } else {
      assert t.value == text[i..i + n];
    }
  }

  /** The closing EOF is located at the end of the text. */
  lemma EofLocated(text: string, p: Pos)
    ensures AllLocated(text, |text|, p, Ok([Token(EOF, "", p.line, p.col)]))
  {
    var t := Token(EOF, "", p.line, p.col);
    assert text[|text|..|text|] == [];
    assert StandsAt(text, |text|, t);
    assert [t][1..] == [];
  }

  lemma {:induction false} LexFromLocated(text: string, i: nat, p: Pos)
    requires i <= |text|
    ensures AllLocated(text, i, p, LexFrom(text, i, p))
    decreases |text| - i
  {
    if i == |text| {
      EofLocated(text, p);
    } else {
      var sc := Scan(text, i);
      if !sc.NoMatch? {
        var n := sc.len;
        assert 0 < n && i + n <= |text|;
        var q := PosAfter(p, text[i..i + n]);
        var rest := LexFrom(text, i + n, q);
        LexFromLocated(text, i + n, q);
        LocatedResultShift(text, i, n, p, rest);
        if sc.Skip? {
          SkipStep(text, i, p);
        } else {
          EmitStep(text, i, p, sc.kind, n);
          EmitLocated(text, i, p, sc.kind, n);
          PrependLocated(text, i, p, Token(sc.kind, TokenValue(sc.kind, text[i..i + n]), p.line, p.col), rest);
        }
      }
    }
  }

  /** Every token carries the line and column reached by reading the text
      from line 1, column 1 up to an offset where it stands: NL tokens on a
      newline character, EOF at the end, and every other token on exactly
      the characters of its value. */
  lemma LexLocated(text: string)
    ensures var r := Lex(text);
      r.Ok? ==> forall k :: 0 <= k < |r.value| ==> LocatedFrom(text, 0, Start, r.value[k])
  {
    LexFromLocated(text, 0, Start);
    var r := Lex(text);
    if r.Ok? {
      LocatedSeqIndexed(text, r.value);
    }
  }

  lemma {:induction false} LocatedSeqIndexed(text: string, ts: seq<Token>)
    requires LocatedSeq(text, 0, Start, ts)
    ensures forall k :: 0 <= k < |ts| ==> LocatedFrom(text, 0, Start, ts[k])
    decreases |ts|
  {
    if |ts| > 0 {
      LocatedSeqIndexed(text, ts[1..]);
      assert forall k :: 0 < k < |ts| ==> ts[k] == ts[1..][k - 1];
    }
  }

  // ---------------------------------------------------------------------------
  // Newlines
  // ---------------------------------------------------------------------------

  /** The newlines a token stands for: one for NL, those inside a string
      literal's value for STRING, none for the others. */
  function TokenNewlines(t: Token): nat {
    match t.kind
    case NL => 1
    case STRING => Newlines(t.value)
    case _ => 0
  }

  function SumNewlines(ts: seq<Token>): nat {
    if ts == [] then 0 else TokenNewlines(ts[0]) + SumNewlines(ts[1..])
  }

  /** Text without newline characters counts no newlines. */
  lemma {:induction false} NoNewlines(s: string)
    requires forall j :: 0 <= j < |s| ==> s[j] != '\n'
    ensures Newlines(s) == 0
    decreases |s|
  {
    if s != [] {
      NoNewlines(s[..|s| - 1]);
    }
  }

  /** Only NL and STRING lexemes can contain a newline: blanks, comments,
      symbols, numbers and words never do. */
  lemma ShapedNewlines(kind: Kind, s: string)
    requires Shaped(kind, s) && kind != NL && kind != STRING
    ensures Newlines(s) == 0
  {
    if kind == DECIMAL {
      var k :| 0 < k < |s| - 1 && s[k] == '.' &&
        (forall j :: 0 <= j < k ==> IsDigit(s[j])) &&
        (forall j :: k < j < |s| ==> IsDigit(s[j]));
      assert forall j :: 0 <= j < |s| ==> s[j] != '\n' by {
        forall j | 0 <= j < |s| ensures s[j] != '\n' {
          if j < k { assert IsDigit(s[j]); } else if j > k { assert IsDigit(s[j]); }
        }
      }
    }
    NoNewlines(s);
  }

  /** An emitted token stands for exactly the newlines of its lexeme. */
  lemma EmitNewlines(kind: Kind, s: string, line: nat, col: nat)
    requires Shaped(kind, s)
    ensures TokenNewlines(Token(kind, TokenValue(kind, s), line, col)) == Newlines(s)
  {
    if kind == NL {
      assert Newlines(s) == Newlines([]) + 1;
    } else if kind != STRING {
      ShapedNewlines(kind, s);
    }
  }

  /** Blanks and comments hold no newline. */
  lemma SkippedNewlines(s: string)
    requires IsBlankRun(s) || IsComment(s)
    ensures Newlines(s) == 0
  {
    NoNewlines(s);
  }

  /** Text skipped at offset i holds no newline. */
  lemma SkipNewlineFree(text: string, i: nat, n: nat)
    requires i < |text| && Scan(text, i) == Skip(n)
    ensures Newlines(text[i..i + n]) == 0
  {
    ScanShape(text, i);
    SkippedNewlines(text[i..i + n]);
  }

  /** A token emitted at offset i stands for the newlines of its lexeme. */
  lemma EmitNewlinesAt(text: string, i: nat, p: Pos, kind: Kind, n: nat)
    requires i < |text| && Scan(text, i) == Emit(kind, n)
    ensures TokenNewlines(Token(kind, TokenValue(kind, text[i..i + n]), p.line, p.col)) ==
      Newlines(text[i..i + n])
  {
    ScanShape(text, i);
    EmitNewlines(kind, text[i..i + n], p.line, p.col);
  }

  /** A successful result stands for count newlines. */
  ghost predicate NewlinesMatch(r: Result<seq<Token>>, count: nat) {
    r.Ok? ==> SumNewlines(r.value) == count
  }

  lemma PrependNewlines(t: Token, r: Result<seq<Token>>, count: nat)
    requires NewlinesMatch(r, count)
    ensures NewlinesMatch(Prepend([t], r), TokenNewlines(t) + count)
  {
    if r.Ok? {
      assert ([t] + r.value)[1..] == r.value;
    }
  }

  lemma {:induction false} LexFromNewlines(text: string, i: nat, p: Pos)
    requires i <= |text|
    ensures NewlinesMatch(LexFrom(text, i, p), Newlines(text[i..]))
    decreases |text| - i
  {
    if i == |text| {
      assert text[i..] == [];
      assert [Token(EOF, "", p.line, p.col)][1..] == [];
    } else {
      var sc := Scan(text, i);
      if !sc.NoMatch? {
        var n := sc.len;
        assert 0 < n && i + n <= |text|;
        var q := PosAfter(p, text[i..i + n]);
        LexFromNewlines(text, i + n, q);
        if sc.Skip? {
          SkipNewlinesStep(text, i, p, n);
        } else {
          EmitNewlinesStep(text, i, p, sc.kind, n);
        }
      }
    }
  }

  /** The newlines after offset i are those of the next n characters and
      those after them. */
  lemma SplitNewlines(text: string, i: nat, n: nat)
    requires i + n <= |text|
    ensures Newlines(text[i..]) == Newlines(text[i..i + n]) + Newlines(text[i + n..])
  {
    assert text[i..] == text[i..i + n] + text[i + n..];
    NewlinesConcat(text[i..i + n], text[i + n..]);
  }

  /** A skipped match keeps the newline count of the rest of the scan. */
  lemma SkipNewlinesStep(text: string, i: nat, p: Pos, n: nat)
    requires i < |text| && Scan(text, i) == Skip(n)
    requires NewlinesMatch(LexFrom(text, i + n, PosAfter(p, text[i..i + n])), Newlines(text[i + n..]))
    ensures NewlinesMatch(LexFrom(text, i, p), Newlines(text[i..]))
  {
    SkipStep(text, i, p);
    SplitNewlines(text, i, n);
    SkipNewlineFree(text, i, n);
  }

  /** An emitted token adds the newlines of its lexeme to the count of the
      rest of the scan. */
  lemma EmitNewlinesStep(text: string, i: nat, p: Pos, kind: Kind, n: nat)
    requires i < |text| && Scan(text, i) == Emit(kind, n)
    requires NewlinesMatch(LexFrom(text, i + n, PosAfter(p, text[i..i + n])), Newlines(text[i + n..]))
    ensures NewlinesMatch(LexFrom(text, i, p), Newlines(text[i..]))
  {
    EmitStep(text, i, p, kind, n);
    EmitNewlinesAt(text, i, p, kind, n);
    SplitNewlines(text, i, n);
    PrependNewlines(Token(kind, TokenValue(kind, text[i..i + n]), p.line, p.col),
                    LexFrom(text, i + n, PosAfter(p, text[i..i + n])), Newlines(text[i + n..]));
  }

  /** Blanks and comments produce no token, and every newline of the text is
      accounted for exactly once: by its own NL token, or inside the value of
      the string literal that spans it. */
  lemma LexNewlines(text: string)
    ensures var r := Lex(text);
      r.Ok? ==> SumNewlines(r.value) == Newlines(text)
  {
    LexFromNewlines(text, 0, Start);
    assert text[0..] == text;
  }

  // ---------------------------------------------------------------------------
  // Lexical errors
  // ---------------------------------------------------------------------------

  /** The characters no pattern accepts at offset i: anything that is not a
      newline, blank, `#`, symbol, digit or letter, and a quote that does not
      start a closed, well-escaped literal. */
  lemma ScanNoMatch(text: string, i: nat)
    requires i < |text|
    ensures Scan(text, i).NoMatch? <==>
      text[i] != '\n' && !IsBlank(text[i]) && text[i] != '#' &&
      SymbolKind(text[i]).None? && !IsDigit(text[i]) && !IsLetter(text[i]) &&
      !(exists e: nat :: i <= e <= |text| && IsStringLexeme(text[i..e]))
  {
    BlankMatch(text, i);
    CommentMatch(text, i);
    IntegerMatch(text, i);
    WordMatch(text, i);
    StringAt(text, i);
  }

  /** e is a lexical error for a character no pattern accepts, at some
      offset j >= i, carrying the position reached from p at offset i. */
  ghost predicate LexicalAt(text: string, i: nat, p: Pos, e: Error)
    requires i <= |text|
  {
    e.Lexical? &&
    exists j :: i <= j < |text| && Scan(text, j).NoMatch? && text[j] == e.ch &&
      PosAfter(p, text[i..j]) == Pos(e.line, e.col)
  }

  lemma ErrorHere(text: string, i: nat, p: Pos)
    requires i < |text| && Scan(text, i).NoMatch?
    ensures LexFrom(text, i, p) == Err(Lexical(p.line, p.col, text[i]))
    ensures LexicalAt(text, i, p, Lexical(p.line, p.col, text[i]))
  {
    assert text[i..i] == [];
  }

  /** A failed result reports a lexical error found at or after offset i. */
  ghost predicate ErrorsAt(text: string, i: nat, p: Pos, r: Result<seq<Token>>)
    requires i <= |text|
  {
    r.Err? ==> LexicalAt(text, i, p, r.error)
  }

  /** An error found after a match of length n is also found from before it. */
  lemma ErrorShift(text: string, i: nat, n: nat, p: Pos, r: Result<seq<Token>>)
    requires i + n <= |text| && ErrorsAt(text, i + n, PosAfter(p, text[i..i + n]), r)
    ensures ErrorsAt(text, i, p, r)
  {
    if r.Err? {
      var e := r.error;
      var q := PosAfter(p, text[i..i + n]);
      var j :| i + n <= j < |text| && Scan(text, j).NoMatch? && text[j] == e.ch &&
        PosAfter(q, text[i + n..j]) == Pos(e.line, e.col);
      assert text[i..j] == text[i..i + n] + text[i + n..j];
      PosAfterConcat(p, text[i..i + n], text[i + n..j]);
    }
  }

  lemma PrependErrors(text: string, i: nat, p: Pos, ts: seq<Token>, r: Result<seq<Token>>)
    requires i <= |text| && ErrorsAt(text, i, p, r)
    ensures ErrorsAt(text, i, p, Prepend(ts, r))
  {
  }

  /** A failed scan reports a character no pattern accepts, with the line
      and column of that character. */
  lemma {:induction false} LexFromError(text: string, i: nat, p: Pos)
    requires i <= |text|
    ensures ErrorsAt(text, i, p, LexFrom(text, i, p))
    decreases |text| - i
  {
    if i < |text| {
      var sc := Scan(text, i);
      if sc.NoMatch? {
        ErrorHere(text, i, p);
      } else {
        var n := sc.len;
        assert 0 < n && i + n <= |text|;
        var q := PosAfter(p, text[i..i + n]);
        var rest := LexFrom(text, i + n, q);
        LexFromError(text, i + n, q);
        ErrorShift(text, i, n, p, rest);
        if sc.Skip? {
          SkipStep(text, i, p);
        } else {
          EmitStep(text, i, p, sc.kind, n);
          PrependErrors(text, i, p, [Token(sc.kind, TokenValue(sc.kind, text[i..i + n]), p.line, p.col)], rest);
        }
      }
    }
  }

  lemma LexError(text: string)
    ensures var r := Lex(text);
      r.Err? ==> (r.error.Lexical? &&
        exists j :: 0 <= j < |text| && Scan(text, j).NoMatch? && text[j] == r.error.ch &&
          PosAfter(Start, text[..j]) == Pos(r.error.line, r.error.col))
  {
    LexFromError(text, 0, Start);
    var r := Lex(text);
    if r.Err? {
      var j :| 0 <= j < |text| && Scan(text, j).NoMatch? && text[j] == r.error.ch &&
        PosAfter(Start, text[0..j]) == Pos(r.error.line, r.error.col);
      assert text[0..j] == text[..j];
    }
  }

  // ---------------------------------------------------------------------------
  // Classification
  // ---------------------------------------------------------------------------

  /** A digit starts a DECIMAL when digits, a dot and a digit follow, and an
      INT otherwise: the decimal pattern is tried first. */
  lemma DigitScan(text: string, i: nat)
    requires i < |text| && IsDigit(text[i])
    ensures Scan(text, i) ==
      if DecimalLen(text, i) > 0 then Emit(DECIMAL, DecimalLen(text, i))
      else Emit(INT, IntegerLen(text, i))
    ensures IntegerLen(text, i) > 0
  {
    BlankMatch(text, i);
    CommentMatch(text, i);
    IntegerMatch(text, i);
  }

  /** A letter starts a word, which is KW when it is reserved and ID
      otherwise. */
  lemma LetterScan(text: string, i: nat)
    requires i < |text| && IsLetter(text[i])
    ensures WordLen(text, i) > 0
    ensures var n := WordLen(text, i);
      Scan(text, i) == Emit(if text[i..i + n] in RESERVED then KW else ID, n)
  {
    BlankMatch(text, i);
    CommentMatch(text, i);
    IntegerMatch(text, i);
    WordMatch(text, i);
  }

  /** On a line without newlines, the column grows by the length. */
  lemma SameLine(p: Pos, s: string)
    requires forall j :: 0 <= j < |s| ==> s[j] != '\n'
    ensures PosAfter(p, s) == Pos(p.line, p.col + |s|)
  {
    NoNewlines(s);
    PosAfterCounts(p, s);
  }

  /** "12.5" is one DECIMAL token, never an INT and a fragment. */
  lemma DecimalExample()
    ensures Lex("12.5") == Ok([Token(DECIMAL, "12.5", 1, 1), Token(EOF, "", 1, 5)])
  {
    var text := "12.5";
    assert RunLen(text, 4, IsDigit) == 0;
    assert RunLen(text, 3, IsDigit) == 1;
    assert RunLen(text, 1, IsDigit) == 1 + RunLen(text, 2, IsDigit) == 1;
    assert RunLen(text, 0, IsDigit) == 2;
    assert DecimalLen(text, 0) == 4;
    DigitScan(text, 0);
    assert Scan(text, 0) == Emit(DECIMAL, 4);
    EmitStep(text, 0, Start, DECIMAL, 4);
    assert text[0..4] == text;
    SameLine(Start, text);
    assert LexFrom(text, 4, Pos(1, 5)) == Ok([Token(EOF, "", 1, 5)]);
    assert Lex(text) == Prepend([Token(DECIMAL, "12.5", 1, 1)], LexFrom(text, 4, Pos(1, 5)));
    assert [Token(DECIMAL, "12.5", 1, 1)] + [Token(EOF, "", 1, 5)] ==
      [Token(DECIMAL, "12.5", 1, 1), Token(EOF, "", 1, 5)];
  }

  /** A leading minus sign matches no pattern: "-1.0" is a lexical error at
      line 1, column 1, so a negative price never reaches the parser. */
  lemma MinusExample()
    ensures Lex("-1.0") == Err(Lexical(1, 1, '-'))
  {
    var text := "-1.0";
    assert StringLen(text, 0) == 0;
    ScanNoMatch(text, 0);
    ErrorHere(text, 0, Start);
  }
}
