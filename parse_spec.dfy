/** The recursive-descent parser as functions over a parser state: one
    function per grammar rule and per helper, each taking the token list and
    the state before the rule and giving the state after it or the first
    error.  The class in parser.dfy runs the same rules imperatively and is
    proved to agree with these functions. */
module ParseSpec {
  import opened Errors
  import opened Tokens
  import opened Scanners
  import opened Numbers

  /** The cursor and the two sets of identifiers defined so far. */
  datatype PState = PState(pos: nat, carousels: set<string>, products: set<string>)

  /** The cursor is on a token of a list that ends with EOF. */
  predicate Ready(ts: seq<Token>, s: PState) {
    EndsWithEof(ts) && s.pos < |ts|
  }

  /** s' is still on a token, not behind s, and the sets have only grown. */
  predicate Follows(ts: seq<Token>, s: PState, s': PState) {
    Ready(ts, s') && s.pos <= s'.pos &&
    s.carousels <= s'.carousels && s.products <= s'.products
  }

  /** s' differs from s only in the cursor. */
  predicate SameSets(s: PState, s': PState) {
    s'.carousels == s.carousels && s'.products == s.products
  }

  // ---------------------------------------------------------------------------
  // Which errors a rule can raise
  // ---------------------------------------------------------------------------

  /** What the lexer guarantees about each token it emits. */
  ghost predicate LexerShaped(t: Token) {
    (t.kind == ID ==> t.value !in RESERVED) &&
    (t.kind == INT ==> IsInteger(t.value)) &&
    (t.kind == DECIMAL ==> IsDecimal(t.value))
  }

  ghost predicate LexerStream(ts: seq<Token>) {
    forall k :: 0 <= k < |ts| ==> LexerShaped(ts[k])
  }

  /** The errors the parser can still meet on a stream the lexer produced:
      not a lexical error, and neither a reserved identifier, a negative
      price nor a value that `int`/`float` refuse. */
  predicate LexerPossible(e: Error) {
    !e.Lexical? && !e.Conversion? && e != Semantic(NegativePrice) &&
    !(e.Semantic? && e.kind.ReservedId?)
  }

  predicate IsDuplicateCarousel(e: Error) {
    e.Semantic? && e.kind.DuplicateCarousel?
  }

  predicate IsDuplicateProduct(e: Error) {
    e.Semantic? && e.kind.DuplicateProduct?
  }

  // ---------------------------------------------------------------------------
  // Helpers: match, consume, skip_nl, fin
  // ---------------------------------------------------------------------------

  /** `match`: the token has the type and, when one is given, the value. */
  predicate Matches(t: Token, kind: Kind, value: Option<string>) {
    t.kind == kind && (value.None? || t.value == value.value)
  }

  predicate Keyword(t: Token, word: string) {
    Matches(t, KW, Some(word))
  }

  /** The syntax error reported at a token. */
  function SyntaxAt(t: Token): Error {
    Syntax(t.line, t.col)
  }

  /** `consume`: succeeds exactly when the current token matches, and then
      moves past it; otherwise reports a syntax error at that token. */
  function Consume(ts: seq<Token>, s: PState, kind: Kind, value: Option<string>): (r: Result<PState>)
    requires Ready(ts, s)
    ensures r.Ok? <==> Matches(ts[s.pos], kind, value)
    ensures r.Ok? ==> r.value == s.(pos := s.pos + 1)
    ensures r.Ok? && kind != EOF ==> Ready(ts, r.value)
    ensures r.Err? ==> r.error == SyntaxAt(ts[s.pos])
  {
    if Matches(ts[s.pos], kind, value) then Ok(s.(pos := s.pos + 1))
    else Err(SyntaxAt(ts[s.pos]))
  }

  /** `skip_nl`: the first token at or after the cursor that is not NL. */
  function SkipNewlines(ts: seq<Token>, s: PState): (r: PState)
    requires Ready(ts, s)
    ensures Ready(ts, r) && SameSets(s, r) && s.pos <= r.pos
    ensures ts[r.pos].kind != NL
    decreases |ts| - s.pos
  {
    if Matches(ts[s.pos], NL, None) then SkipNewlines(ts, s.(pos := s.pos + 1)) else s
  }

  /** `fin`: a SEMI followed by any number of NL, or one or more NL. */
  function StatementEnd(ts: seq<Token>, s: PState): (r: Result<PState>)
    requires Ready(ts, s)
    ensures r.Ok? <==> ts[s.pos].kind == SEMI || ts[s.pos].kind == NL
    ensures r.Ok? ==> Ready(ts, r.value) && SameSets(s, r.value) && s.pos < r.value.pos
    ensures r.Ok? ==> ts[r.value.pos].kind != NL
    ensures r.Err? ==> r.error == SyntaxAt(ts[s.pos])
  {
    if Matches(ts[s.pos], SEMI, None) then
      var s1 := Consume(ts, s, SEMI, None).value;
      Ok(SkipNewlines(ts, s1))
    else if Matches(ts[s.pos], NL, None) then
      Ok(SkipNewlines(ts, s))
    else
      Err(SyntaxAt(ts[s.pos]))
  }

  /** `int(tok.value)` */
  function IntToken(t: Token): (r: Result<int>)
    ensures r.Err? ==> r.error == Conversion(t.value)
    ensures IsInteger(t.value) ==> r == Ok(IntValue(t.value))
  {
    match IntOf(t.value)
    case Some(v) => Ok(v)
    case None => Err(Conversion(t.value))
  }

  /** `float(tok.value)` */
  function FloatToken(t: Token): (r: Result<real>)
    ensures r.Err? ==> r.error == Conversion(t.value)
    ensures IsDecimal(t.value) ==> r.Ok? && r.value >= 0.0
  {
    match FloatOf(t.value)
    case Some(v) => Ok(v)
    case None => Err(Conversion(t.value))
  }

  // ---------------------------------------------------------------------------
  // The whole program: the definitions, the simulation, then the end
  // ---------------------------------------------------------------------------

  function Program(ts: seq<Token>, s: PState): (r: Result<PState>)
    requires Ready(ts, s)
    ensures r.Ok? ==> s.pos < r.value.pos && PastEof(ts, r.value)
    ensures r.Err? && LexerStream(ts) ==> LexerPossible(r.error)
  {
    var s1 := SkipNewlines(ts, s);
    var s2 :- Definitions(ts, s1);
    var s3 := SkipNewlines(ts, s2);
    var s4 :- Simulation(ts, s3);
    ProgramEnd(ts, s4)
  }

  /** The cursor has just passed an EOF token. */
  predicate PastEof(ts: seq<Token>, s: PState) {
    0 < s.pos <= |ts| && ts[s.pos - 1].kind == EOF
  }

  /** The NL tokens after the simulation and then EOF. */
  function ProgramEnd(ts: seq<Token>, s: PState): (r: Result<PState>)
    requires Ready(ts, s)
    ensures r.Ok? ==> s.pos < r.value.pos && PastEof(ts, r.value)
    ensures r.Err? ==> r.error.Syntax?
  {
    var s1 := SkipNewlines(ts, s);
    Consume(ts, s1, EOF, None)
  }

  // ---------------------------------------------------------------------------
  // Definitions: any number of carousels
  // ---------------------------------------------------------------------------

  function Definitions(ts: seq<Token>, s: PState): (r: Result<PState>)
    requires Ready(ts, s)
    ensures r.Ok? ==> Follows(ts, s, r.value)
    ensures r.Err? && LexerStream(ts) ==> LexerPossible(r.error)
    decreases |ts| - s.pos
  {
    if Keyword(ts[s.pos], "CARRUSEL") then
      var s1 :- CarouselDef(ts, s);
      var s2 := SkipNewlines(ts, s1);
      Definitions(ts, s2)
    else
      Ok(s)
  }

  /** A carousel: the CARRUSEL keyword, an identifier not yet used for a
      carousel, then its parameters and its own catalogue between braces.
      The identifier is recorded before the body is read. */
  function CarouselDef(ts: seq<Token>, s: PState): (r: Result<PState>)
    requires Ready(ts, s)
    ensures r.Ok? ==> Follows(ts, s, r.value) && s.pos < r.value.pos
    ensures r.Ok? ==> s.pos + 1 < |ts| && ts[s.pos + 1].kind == ID
    ensures r.Ok? ==> ts[s.pos + 1].value !in s.carousels && ts[s.pos + 1].value in r.value.carousels
    ensures r.Err? && LexerStream(ts) ==> LexerPossible(r.error)
    decreases |ts| - s.pos
  {
    var s1 :- CarouselHead(ts, s);
    CarouselBlock(ts, s1)
  }

  /** 'CARRUSEL' id, with the identifier checked and recorded. */
  function CarouselHead(ts: seq<Token>, s: PState): (r: Result<PState>)
    requires Ready(ts, s)
    ensures r.Ok? ==> Ready(ts, r.value) && r.value.pos == s.pos + 2 && r.value.products == s.products
    ensures r.Ok? ==> ts[s.pos + 1].kind == ID && ts[s.pos + 1].value !in s.carousels
    ensures r.Ok? ==> r.value.carousels == s.carousels + {ts[s.pos + 1].value}
    ensures r.Err? && LexerStream(ts) ==> LexerPossible(r.error)
  {
    var s1 :- Consume(ts, s, KW, Some("CARRUSEL"));
    var id := ts[s1.pos].value;
    var s2 :- Consume(ts, s1, ID, None);
    if id in RESERVED then Err(Semantic(ReservedId(id)))
    else if id in s2.carousels then Err(Semantic(DuplicateCarousel(id)))
    else Ok(s2.(carousels := s2.carousels + {id}))
  }

  /** The braces of a carousel and what they hold: the parameters, then the
      catalogue, then the NL after the closing brace. */
  function CarouselBlock(ts: seq<Token>, s: PState): (r: Result<PState>)
    requires Ready(ts, s)
    ensures r.Ok? ==> Follows(ts, s, r.value) && s.pos < r.value.pos
    ensures r.Err? && LexerStream(ts) ==> LexerPossible(r.error)
    decreases |ts| - s.pos
  {
    var s1 := SkipNewlines(ts, s);
    var s2 :- Consume(ts, s1, LBRACE, None);
    var s3 := SkipNewlines(ts, s2);
    var s4 :- Parameters(ts, s3);
    var s5 := SkipNewlines(ts, s4);
    var s6 :- Catalog(ts, s5);
    var s7 := SkipNewlines(ts, s6);
    var s8 :- Consume(ts, s7, RBRACE, None);
    Ok(SkipNewlines(ts, s8))
  }

  /** The parameters of a carousel: the slot count, then the capacity, each
      a whole-number setting closing a statement; both must be positive. */
  function Parameters(ts: seq<Token>, s: PState): (r: Result<PState>)
    requires Ready(ts, s)
    ensures r.Ok? ==> Ready(ts, r.value) && SameSets(s, r.value) && s.pos < r.value.pos
    ensures r.Err? && LexerStream(ts) ==> LexerPossible(r.error)
    decreases |ts| - s.pos
  {
    var (s1, slots) :- IntSetting(ts, s, "ESPACIOS");
    if slots <= 0 then Err(Semantic(NonPositiveSlots)) else
    var s2 :- StatementEnd(ts, s1);
    var (s3, capacity) :- IntSetting(ts, s2, "CAPACIDAD");
    if capacity <= 0 then Err(Semantic(NonPositiveCapacity)) else
    StatementEnd(ts, s3)
  }

  /** One whole-number setting, as carousel parameters and product limits
      are read: the keyword, the colon, the INT token, then `int` of its value. */
  function IntSetting(ts: seq<Token>, s: PState, word: string): (r: Result<(PState, int)>)
    requires Ready(ts, s)
    ensures r.Ok? ==> Ready(ts, r.value.0) && r.value.0 == s.(pos := s.pos + 3)
    ensures r.Err? && LexerStream(ts) ==> LexerPossible(r.error)
  {
    var s1 :- Consume(ts, s, KW, Some(word));
    var s2 :- Consume(ts, s1, COLON, None);
    var s3 :- Consume(ts, s2, INT, None);
    var n :- IntToken(ts[s2.pos]);
    Ok((s3, n))
  }

  /** A catalogue: any number of products. */
  function Catalog(ts: seq<Token>, s: PState): (r: Result<PState>)
    requires Ready(ts, s)
    ensures r.Ok? ==> Follows(ts, s, r.value)
    ensures r.Err? && LexerStream(ts) ==> LexerPossible(r.error)
    decreases |ts| - s.pos
  {
    if Keyword(ts[s.pos], "PRODUCTO") then
      var s1 :- ProductDef(ts, s);
      var s2 := SkipNewlines(ts, s1);
      Catalog(ts, s2)
    else
      Ok(s)
  }

  /** A product: the PRODUCTO keyword, an identifier not yet used for any
      product, then its price, its stock limits and its criticality level
      between braces.  The identifier is recorded in the one product set of
      the whole program. */
  function ProductDef(ts: seq<Token>, s: PState): (r: Result<PState>)
    requires Ready(ts, s)
    ensures r.Ok? ==> Follows(ts, s, r.value) && s.pos < r.value.pos
    ensures r.Ok? ==> s.pos + 1 < |ts| && ts[s.pos + 1].kind == ID
    ensures r.Ok? ==> ts[s.pos + 1].value !in s.products && ts[s.pos + 1].value in r.value.products
    ensures r.Err? && LexerStream(ts) ==> LexerPossible(r.error)
    decreases |ts| - s.pos
  {
    var s1 :- ProductHead(ts, s);
    ProductBlock(ts, s1)
  }

  /** 'PRODUCTO' id, with the identifier checked and recorded. */
  function ProductHead(ts: seq<Token>, s: PState): (r: Result<PState>)
    requires Ready(ts, s)
    ensures r.Ok? ==> Ready(ts, r.value) && r.value.pos == s.pos + 2 && r.value.carousels == s.carousels
    ensures r.Ok? ==> ts[s.pos + 1].kind == ID && ts[s.pos + 1].value !in s.products
    ensures r.Ok? ==> r.value.products == s.products + {ts[s.pos + 1].value}
    ensures r.Err? && LexerStream(ts) ==> LexerPossible(r.error)
  {
    var s1 :- Consume(ts, s, KW, Some("PRODUCTO"));
    var id := ts[s1.pos].value;
    var s2 :- Consume(ts, s1, ID, None);
    if id in RESERVED then Err(Semantic(ReservedId(id)))
    else if id in s2.products then Err(Semantic(DuplicateProduct(id)))
    else Ok(s2.(products := s2.products + {id}))
  }

  /** The braces of a product and its four settings, then the NL after '}'. */
  function ProductBlock(ts: seq<Token>, s: PState): (r: Result<PState>)
    requires Ready(ts, s)
    ensures r.Ok? ==> Ready(ts, r.value) && SameSets(s, r.value) && s.pos < r.value.pos
    ensures r.Err? && LexerStream(ts) ==> LexerPossible(r.error)
  {
    var s1 := SkipNewlines(ts, s);
    var s2 :- Consume(ts, s1, LBRACE, None);
    var s3 := SkipNewlines(ts, s2);
    var s4 :- ProductBody(ts, s3);
    var s5 :- Consume(ts, s4, RBRACE, None);
    Ok(SkipNewlines(ts, s5))
  }

  /** The four settings of a product, from PRECIO to the `fin` after the
      criticality. */
  function ProductBody(ts: seq<Token>, s: PState): (r: Result<PState>)
    requires Ready(ts, s)
    ensures r.Ok? ==> Ready(ts, r.value) && SameSets(s, r.value) && s.pos < r.value.pos
    ensures r.Err? && LexerStream(ts) ==> LexerPossible(r.error)
  {
    var s1 :- Price(ts, s);
    var s2 :- StockLimits(ts, s1);
    Criticality(ts, s2)
  }

  /** The price: a DECIMAL setting that must not be negative. */
  function Price(ts: seq<Token>, s: PState): (r: Result<PState>)
    requires Ready(ts, s)
    ensures r.Ok? ==> Ready(ts, r.value) && SameSets(s, r.value) && s.pos < r.value.pos
    ensures r.Err? && LexerStream(ts) ==> LexerPossible(r.error)
  {
    var s1 :- Consume(ts, s, KW, Some("PRECIO"));
    var s2 :- Consume(ts, s1, COLON, None);
    var priceToken := ts[s2.pos];
    var s3 :- Consume(ts, s2, DECIMAL, None);
    var price :- FloatToken(priceToken);
    if price < 0.0 then Err(Semantic(NegativePrice)) else
    StatementEnd(ts, s3)
  }

  /** The minimum and then the maximum stock, each a whole-number setting;
      the minimum must not exceed the maximum. */
  function StockLimits(ts: seq<Token>, s: PState): (r: Result<PState>)
    requires Ready(ts, s)
    ensures r.Ok? ==> Ready(ts, r.value) && SameSets(s, r.value) && s.pos < r.value.pos
    ensures r.Err? && LexerStream(ts) ==> LexerPossible(r.error)
  {
    var (s1, minimum) :- IntSetting(ts, s, "MINIMO");
    var s2 :- StatementEnd(ts, s1);
    var (s3, maximum) :- IntSetting(ts, s2, "MAXIMO");
    if minimum > maximum then Err(Semantic(MinAboveMax)) else
    StatementEnd(ts, s3)
  }

  predicate IsCriticality(t: Token) {
    Keyword(t, "ALTA") || Keyword(t, "MEDIA") || Keyword(t, "BAJA")
  }

  /** The criticality setting: one of the three level keywords after the
      colon; any other token there is a syntax error at that token. */
  function Criticality(ts: seq<Token>, s: PState): (r: Result<PState>)
    requires Ready(ts, s)
    ensures r.Ok? ==> Ready(ts, r.value) && SameSets(s, r.value) && s.pos < r.value.pos
    ensures r.Err? && LexerStream(ts) ==> LexerPossible(r.error)
  {
    var s1 :- Consume(ts, s, KW, Some("CRITICIDAD"));
    var s2 :- Consume(ts, s1, COLON, None);
    if IsCriticality(ts[s2.pos]) then
      StatementEnd(ts, s2.(pos := s2.pos + 1))
    else
      Err(SyntaxAt(ts[s2.pos]))
  }

  // ---------------------------------------------------------------------------
  // The simulation: its keyword, then braces holding the transaction block
  // and any number of queries, each closing a statement
  // ---------------------------------------------------------------------------

  function Simulation(ts: seq<Token>, s: PState): (r: Result<PState>)
    requires Ready(ts, s)
    ensures r.Ok? ==> Ready(ts, r.value) && SameSets(s, r.value) && s.pos < r.value.pos
    ensures r.Err? && LexerStream(ts) ==> LexerPossible(r.error)
  {
    var s1 :- Consume(ts, s, KW, Some("SIMULAR"));
    var s2 := SkipNewlines(ts, s1);
    var s3 :- Consume(ts, s2, LBRACE, None);
    var s4 := SkipNewlines(ts, s3);
    var s5 :- TransactionBlock(ts, s4);
    var s6 := SkipNewlines(ts, s5);
    var s7 :- Queries(ts, s6);
    Consume(ts, s7, RBRACE, None)
  }

  predicate IsQueryWord(t: Token) {
    Keyword(t, "ESTADO") || Keyword(t, "ESTADISTICAS") || Keyword(t, "REPORTE")
  }

  /** The query loop of the simulation: a query and its statement end, as
      long as a query keyword is next, skipping NL after each. */
  function Queries(ts: seq<Token>, s: PState): (r: Result<PState>)
    requires Ready(ts, s)
    ensures r.Ok? ==> Ready(ts, r.value) && SameSets(s, r.value) && s.pos <= r.value.pos
    ensures r.Err? && LexerStream(ts) ==> LexerPossible(r.error)
    decreases |ts| - s.pos
  {
    if IsQueryWord(ts[s.pos]) then
      var s1 :- Query(ts, s);
      var s2 :- StatementEnd(ts, s1);
      var s3 := SkipNewlines(ts, s2);
      Queries(ts, s3)
    else
      Ok(s)
  }

  /** A query: the state or statistics keyword alone, or a report naming a
      STRING in parentheses. */
  function Query(ts: seq<Token>, s: PState): (r: Result<PState>)
    requires Ready(ts, s)
    ensures r.Ok? ==> Ready(ts, r.value) && SameSets(s, r.value) && s.pos < r.value.pos
    ensures r.Err? ==> r.error.Syntax?
  {
    if Keyword(ts[s.pos], "ESTADO") then
      Consume(ts, s, KW, Some("ESTADO"))
    else if Keyword(ts[s.pos], "ESTADISTICAS") then
      Consume(ts, s, KW, Some("ESTADISTICAS"))
    else if Keyword(ts[s.pos], "REPORTE") then
      var s1 := Consume(ts, s, KW, Some("REPORTE")).value;
      var s2 :- Consume(ts, s1, LPAREN, None);
      var s3 :- Consume(ts, s2, STRING, None);
      Consume(ts, s3, RPAREN, None)
    else
      Err(SyntaxAt(ts[s.pos]))
  }

  // ---------------------------------------------------------------------------
  // The transaction block: its keyword and a colon, then a bracketed and
  // possibly empty list of transactions, then the end of the statement
  // ---------------------------------------------------------------------------

  /** The list may be empty: it is read only when the token after '[' and
      the NL that follow it is not ']'. */
  function TransactionBlock(ts: seq<Token>, s: PState): (r: Result<PState>)
    requires Ready(ts, s)
    ensures r.Ok? ==> Ready(ts, r.value) && SameSets(s, r.value) && s.pos < r.value.pos
    ensures r.Err? && LexerStream(ts) ==> LexerPossible(r.error)
  {
    var s1 :- Consume(ts, s, KW, Some("TRANSACCIONES"));
    var s2 :- Consume(ts, s1, COLON, None);
    var s3 :- Consume(ts, s2, LBRACKET, None);
    var s4 := SkipNewlines(ts, s3);
    if Matches(ts[s4.pos], RBRACKET, None) then
      BlockEnd(ts, s4)
    else
      var s5 :- TransactionList(ts, s4);
      BlockEnd(ts, s5)
  }

  /** The NL before ']', the ']' and the required `fin` after it.  The source
      tests for ';' or NL before calling `fin`, and reports a missing one at
      the same token `fin` would. */
  function BlockEnd(ts: seq<Token>, s: PState): (r: Result<PState>)
    requires Ready(ts, s)
    ensures r.Ok? ==> Ready(ts, r.value) && SameSets(s, r.value) && s.pos < r.value.pos
    ensures r.Err? ==> r.error.Syntax?
  {
    var s1 := SkipNewlines(ts, s);
    var s2 :- Consume(ts, s1, RBRACKET, None);
    StatementEnd(ts, s2)
  }

  /** A transaction list: one transaction, then more, each after a comma. */
  function TransactionList(ts: seq<Token>, s: PState): (r: Result<PState>)
    requires Ready(ts, s)
    ensures r.Ok? ==> Ready(ts, r.value) && SameSets(s, r.value) && s.pos < r.value.pos
    ensures r.Err? && LexerStream(ts) ==> LexerPossible(r.error)
  {
    var s1 :- Transaction(ts, s);
    MoreTransactions(ts, s1)
  }

  /** The comma loop of a transaction list: while the current token is a comma, consume it,
      skip NL and read one more transaction. */
  function MoreTransactions(ts: seq<Token>, s: PState): (r: Result<PState>)
    requires Ready(ts, s)
    ensures r.Ok? ==> Ready(ts, r.value) && SameSets(s, r.value) && s.pos <= r.value.pos
    ensures r.Err? && LexerStream(ts) ==> LexerPossible(r.error)
    decreases |ts| - s.pos
  {
    if Matches(ts[s.pos], COMMA, None) then
      var s1 := Consume(ts, s, COMMA, None).value;
      var s2 := SkipNewlines(ts, s1);
      var s3 :- Transaction(ts, s2);
      MoreTransactions(ts, s3)
    else
      Ok(s)
  }

  predicate IsTransactionWord(t: Token) {
    Keyword(t, "RETIRAR") || Keyword(t, "RESURTIR") || Keyword(t, "CONTAR")
  }

  /** A transaction: a withdrawal or a restock naming a product and a
      quantity, or a count naming a product alone, all in parentheses.
      Each transaction is checked right after its ')'; the product is the
      identifier two tokens after the keyword. */
  function Transaction(ts: seq<Token>, s: PState): (r: Result<PState>)
    requires Ready(ts, s)
    ensures r.Ok? ==> Ready(ts, r.value) && SameSets(s, r.value) && s.pos < r.value.pos
    ensures r.Err? && LexerStream(ts) ==> LexerPossible(r.error)
  {
    if Keyword(ts[s.pos], "RETIRAR") then
      QuantityTransaction(ts, s, "RETIRAR")
    else if Keyword(ts[s.pos], "RESURTIR") then
      QuantityTransaction(ts, s, "RESURTIR")
    else if Keyword(ts[s.pos], "CONTAR") then
      var s1 := Consume(ts, s, KW, Some("CONTAR")).value;
      var s2 :- Consume(ts, s1, LPAREN, None);
      var id := ts[s2.pos].value;
      var s3 :- Consume(ts, s2, ID, None);
      var s4 :- Consume(ts, s3, RPAREN, None);
      match CheckTransaction(s4.products, id, 1)
      case Pass => Ok(s4)
      case Fail(e) => Err(e)
    else
      Err(SyntaxAt(ts[s.pos]))
  }

  /** A withdrawal or a restock, which read alike: the keyword, then the
      product identifier and the INT quantity in parentheses. */
  function QuantityTransaction(ts: seq<Token>, s: PState, word: string): (r: Result<PState>)
    requires Ready(ts, s)
    ensures r.Ok? ==> Ready(ts, r.value) && SameSets(s, r.value) && s.pos < r.value.pos
    ensures r.Err? && LexerStream(ts) ==> LexerPossible(r.error)
  {
    var s1 :- Consume(ts, s, KW, Some(word));
    var s2 :- Consume(ts, s1, LPAREN, None);
    var id := ts[s2.pos].value;
    var s3 :- Consume(ts, s2, ID, None);
    var s4 :- Consume(ts, s3, COMMA, None);
    var quantityToken := ts[s4.pos];
    var s5 :- Consume(ts, s4, INT, None);
    var quantity :- IntToken(quantityToken);
    var s6 :- Consume(ts, s5, RPAREN, None);
    match CheckTransaction(s6.products, id, quantity)
    case Pass => Ok(s6)
    case Fail(e) => Err(e)
  }

  /** `check_tx_semantics`: the product must be defined, then the quantity
      must be positive. */
  function CheckTransaction(products: set<string>, id: string, quantity: int): (o: Outcome)
    ensures o.Pass? <==> id in products && quantity > 0
    ensures id !in products ==> o == Fail(Semantic(UndefinedProduct(id)))
    ensures id in products && quantity <= 0 ==> o == Fail(Semantic(NonPositiveQuantity))
  {
    if id !in products then Fail(Semantic(UndefinedProduct(id)))
    else if quantity <= 0 then Fail(Semantic(NonPositiveQuantity))
    else Pass
  }
}
