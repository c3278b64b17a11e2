/** The two passes run one after the other: the text is split into tokens,
    and the parser reads the token list from its first token with no
    identifier defined yet.  The text is accepted, or rejected with the first
    error of either pass. */
module Validator {
  import opened Errors
  import opened Tokens
  import opened LexSpec
  import opened LexProps
  import Lexer
  import opened ParseSpec
  import Parsing

  /** The state the parser starts in. */
  const Initial := PState(0, {}, {})

  /** Lexing, then `programa` over the whole token list.  A lexical error
      is the outcome as it stands: the parser never runs on such a text. */
  function Validate(text: string): (r: Result<PState>)
    ensures Lex(text).Err? ==> r == Err(Lex(text).error)
    ensures r.Ok? ==> Lex(text).Ok? && 0 < r.value.pos <= |Lex(text).value|
  {
    var ts :- Lex(text);
    LexEof(text);
    Program(ts, Initial)
  }

  /** The lexer's tokens have every shape the parser's dead guards rely on:
      no ID is a reserved word, every INT is digits and every DECIMAL is
      digits, a dot and digits. */
  lemma LexedStream(text: string)
    ensures Lex(text).Ok? ==> LexerStream(Lex(text).value)
  {
    LexShapes(text);
    var r := Lex(text);
    if r.Ok? {
      forall k | 0 <= k < |r.value|
        ensures LexerShaped(r.value[k])
      {
        assert WellShaped(r.value[k]);
      }
    }
  }

  /** In the model, the reserved-identifier checks, the negative-price check
      and the `int`/`float` failures can never fire on text: a rejected text
      stops at a lexical error exactly when the lexer refused it, and
      otherwise at a syntax error or one of the remaining semantic errors.
      `int` is modelled without CPython's limit on the number of digits. */
  lemma DeadGuards(text: string)
    ensures var r := Validate(text);
      r.Err? ==> (r.error.Lexical? <==> Lex(text).Err?)
    ensures var r := Validate(text);
      r.Err? ==>
        r.error.Lexical? || r.error.Syntax? ||
        (r.error.Semantic? && !r.error.kind.ReservedId? && r.error.kind != NegativePrice)
  {
    LexError(text);
    LexedStream(text);
  }

  /** An accepted text has had every token read, up to and including the
      one EOF at its end. */
  lemma AcceptedReadsAll(text: string)
    ensures Validate(text).Ok? ==> Validate(text).value.pos == |Lex(text).value|
  {
    var r := Validate(text);
    if r.Ok? {
      LexEof(text);
      var ts := Lex(text).value;
      assert r == Program(ts, Initial);
      var p := r.value.pos;
      assert ts[p - 1].kind == EOF;
      assert p - 1 == |ts| - 1;
    }
  }

  /** Tokenize, then a parser over the tokens running `programa`.  The
      outcome is the one Validate gives. */
  method Check(text: string) returns (o: Outcome)
    ensures Validate(text).Ok? ==> o == Pass
    ensures Validate(text).Err? ==> o == Fail(Validate(text).error)
  {
    var lexed := Lexer.Tokenize(text);
    if lexed.Err? {
      return Fail(lexed.error);
    }
    LexEof(text);
    var parser := new Parsing.Parser(lexed.value);
    o := parser.Program();
  }
}
