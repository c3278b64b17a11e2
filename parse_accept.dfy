/** What the parser accepts: for the rules that read a fixed run of tokens,
    the tokens that make the rule succeed and where it leaves the cursor;
    then one whole program followed rule by rule to its end. */
module ParseAccept {
  import opened Errors
  import opened Tokens
  import opened Scanners
  import opened Numbers
  import opened ParseSpec

  /** `word : <token of the given type>` starting at token p. */
  predicate SettingAt(ts: seq<Token>, p: nat, word: string, kind: Kind) {
    p + 2 < |ts| && Keyword(ts[p], word) && ts[p + 1].kind == COLON && ts[p + 2].kind == kind
  }

  /** A whole-number setting at p whose INT value is digits worth more than 0. */
  predicate PositiveSettingAt(ts: seq<Token>, p: nat, word: string) {
    SettingAt(ts, p, word, INT) && IsInteger(ts[p + 2].value) && IntValue(ts[p + 2].value) > 0
  }

  /** A ';' at p that no NL follows. */
  predicate SemicolonAt(ts: seq<Token>, p: nat) {
    p + 1 < |ts| && ts[p].kind == SEMI && ts[p + 1].kind != NL
  }

  /** `fin` on a ';' that no NL follows reads exactly that ';'. */
  lemma SemicolonEnd(ts: seq<Token>, s: PState)
    requires Ready(ts, s) && SemicolonAt(ts, s.pos)
    ensures StatementEnd(ts, s) == Ok(s.(pos := s.pos + 1))
  {
  }

  /** `word : <token of the given type>` is read one token at a time. */
  lemma SettingSteps(ts: seq<Token>, s: PState, word: string, kind: Kind)
    requires Ready(ts, s) && SettingAt(ts, s.pos, word, kind) && kind != EOF
    ensures Consume(ts, s, KW, Some(word)) == Ok(s.(pos := s.pos + 1))
    ensures Consume(ts, s.(pos := s.pos + 1), COLON, None) == Ok(s.(pos := s.pos + 2))
    ensures Consume(ts, s.(pos := s.pos + 2), kind, None) == Ok(s.(pos := s.pos + 3))
  {
  }

  /** A setting of digits reads three tokens and gives the number they spell. */
  lemma IntSettingAccepts(ts: seq<Token>, s: PState, word: string)
    requires Ready(ts, s) && SettingAt(ts, s.pos, word, INT) && IsInteger(ts[s.pos + 2].value)
    ensures IntSetting(ts, s, word) == Ok((s.(pos := s.pos + 3), IntValue(ts[s.pos + 2].value)))
  {
    SettingSteps(ts, s, word, INT);
  }

  /** `ESPACIOS : n ; CAPACIDAD : m ;` with n and m positive. */
  predicate ParametersAt(ts: seq<Token>, p: nat) {
    PositiveSettingAt(ts, p, "ESPACIOS") && SemicolonAt(ts, p + 3) &&
    PositiveSettingAt(ts, p + 4, "CAPACIDAD") && SemicolonAt(ts, p + 7)
  }

  /** `PRECIO : d ;` with d digits, a dot and digits. */
  ghost predicate PriceAt(ts: seq<Token>, p: nat) {
    SettingAt(ts, p, "PRECIO", DECIMAL) && IsDecimal(ts[p + 2].value) && SemicolonAt(ts, p + 3)
  }

  /** `MINIMO : a ; MAXIMO : b ;` with a and b digits and a <= b. */
  predicate StockLimitsAt(ts: seq<Token>, p: nat) {
    SettingAt(ts, p, "MINIMO", INT) && IsInteger(ts[p + 2].value) && SemicolonAt(ts, p + 3) &&
    SettingAt(ts, p + 4, "MAXIMO", INT) && IsInteger(ts[p + 6].value) && SemicolonAt(ts, p + 7) &&
    IntValue(ts[p + 2].value) <= IntValue(ts[p + 6].value)
  }

  /** `CRITICIDAD : level ;` with one of the three levels. */
  predicate CriticalityAt(ts: seq<Token>, p: nat) {
    p + 2 < |ts| && Keyword(ts[p], "CRITICIDAD") && ts[p + 1].kind == COLON &&
    IsCriticality(ts[p + 2]) && SemicolonAt(ts, p + 3)
  }

  /** The four settings of a product. */
  ghost predicate ProductBodyAt(ts: seq<Token>, p: nat) {
    PriceAt(ts, p) && StockLimitsAt(ts, p + 4) && CriticalityAt(ts, p + 12)
  }

  /** `{ <the four settings> }` with no NL after the closing brace. */
  ghost predicate ProductBlockAt(ts: seq<Token>, p: nat) {
    p + 18 < |ts| && ts[p].kind == LBRACE && ProductBodyAt(ts, p + 1) &&
    ts[p + 17].kind == RBRACE && ts[p + 18].kind != NL
  }

  /** `PRODUCTO id { ... }` with id not a reserved word. */
  ghost predicate ProductAt(ts: seq<Token>, p: nat) {
    p + 2 < |ts| && Keyword(ts[p], "PRODUCTO") &&
    ts[p + 1].kind == ID && ts[p + 1].value !in RESERVED && ProductBlockAt(ts, p + 2)
  }

  /** `{ <parameters> <one product> }` with no NL after the closing brace. */
  ghost predicate CarouselBlockAt(ts: seq<Token>, p: nat) {
    p + 30 < |ts| && ts[p].kind == LBRACE && ParametersAt(ts, p + 1) && ProductAt(ts, p + 9) &&
    ts[p + 29].kind == RBRACE && ts[p + 30].kind != NL
  }

  /** `CARRUSEL id { ... }` with id not a reserved word. */
  ghost predicate CarouselAt(ts: seq<Token>, p: nat) {
    p + 2 < |ts| && Keyword(ts[p], "CARRUSEL") &&
    ts[p + 1].kind == ID && ts[p + 1].value !in RESERVED && CarouselBlockAt(ts, p + 2)
  }

  /** `RETIRAR ( id , q )` or `RESURTIR ( id , q )` with q digits worth
      more than 0. */
  predicate QuantityAt(ts: seq<Token>, p: nat) {
    p + 5 < |ts| && (Keyword(ts[p], "RETIRAR") || Keyword(ts[p], "RESURTIR")) &&
    ts[p + 1].kind == LPAREN && ts[p + 2].kind == ID && ts[p + 3].kind == COMMA &&
    ts[p + 4].kind == INT && IsInteger(ts[p + 4].value) && IntValue(ts[p + 4].value) > 0 &&
    ts[p + 5].kind == RPAREN
  }

  /** The slot count and the capacity, both positive, are accepted. */
  lemma ParametersAccepts(ts: seq<Token>, s: PState)
    requires Ready(ts, s) && ParametersAt(ts, s.pos)
    ensures Parameters(ts, s) == Ok(s.(pos := s.pos + 8))
  {
    IntSettingAccepts(ts, s, "ESPACIOS");
    SemicolonEnd(ts, s.(pos := s.pos + 3));
    IntSettingAccepts(ts, s.(pos := s.pos + 4), "CAPACIDAD");
    SemicolonEnd(ts, s.(pos := s.pos + 7));
  }

  /** `float` reads a decimal lexeme as a number that is not negative. */
  lemma DecimalPrice(t: Token)
    requires IsDecimal(t.value)
    ensures FloatToken(t).Ok? && FloatToken(t).value >= 0.0
  {
  }

  /** A price the lexer could produce is never negative, so it is accepted. */
  lemma PriceAccepts(ts: seq<Token>, s: PState)
    requires Ready(ts, s) && PriceAt(ts, s.pos)
    ensures Price(ts, s) == Ok(s.(pos := s.pos + 4))
  {
    SettingSteps(ts, s, "PRECIO", DECIMAL);
    DecimalPrice(ts[s.pos + 2]);
    SemicolonEnd(ts, s.(pos := s.pos + 3));
  }

  /** Stock limits with the minimum not above the maximum are accepted. */
  lemma StockLimitsAccepts(ts: seq<Token>, s: PState)
    requires Ready(ts, s) && StockLimitsAt(ts, s.pos)
    ensures StockLimits(ts, s) == Ok(s.(pos := s.pos + 8))
  {
    IntSettingAccepts(ts, s, "MINIMO");
    SemicolonEnd(ts, s.(pos := s.pos + 3));
    IntSettingAccepts(ts, s.(pos := s.pos + 4), "MAXIMO");
    SemicolonEnd(ts, s.(pos := s.pos + 7));
  }

  /** Any of the three criticality levels is accepted. */
  lemma CriticalityAccepts(ts: seq<Token>, s: PState)
    requires Ready(ts, s) && CriticalityAt(ts, s.pos)
    ensures Criticality(ts, s) == Ok(s.(pos := s.pos + 4))
  {
    SemicolonEnd(ts, s.(pos := s.pos + 3));
  }

  /** The four settings of a product are accepted. */
  lemma ProductBodyAccepts(ts: seq<Token>, s: PState)
    requires Ready(ts, s) && ProductBodyAt(ts, s.pos)
    ensures ProductBody(ts, s) == Ok(s.(pos := s.pos + 16))
  {
    PriceAccepts(ts, s);
    StockLimitsAccepts(ts, s.(pos := s.pos + 4));
    CriticalityAccepts(ts, s.(pos := s.pos + 12));
  }

  /** A rule that skips NL tokens stays put on a token that is not NL. */
  lemma NoNewlines(ts: seq<Token>, s: PState)
    requires Ready(ts, s) && ts[s.pos].kind != NL
    ensures SkipNewlines(ts, s) == s
  {
  }

  /** A '{' at open and a '}' at close, neither of them followed by NL. */
  predicate BracesAt(ts: seq<Token>, open: nat, close: nat) {
    open < close && close + 1 < |ts| &&
    ts[open].kind == LBRACE && ts[open + 1].kind != NL &&
    ts[close].kind == RBRACE && ts[close + 1].kind != NL
  }

  /** An opening brace with no NL around it is read as one token. */
  lemma OpenBrace(ts: seq<Token>, s: PState, close: nat)
    requires Ready(ts, s) && BracesAt(ts, s.pos, close)
    ensures SkipNewlines(ts, s) == s
    ensures Consume(ts, s, LBRACE, None) == Ok(s.(pos := s.pos + 1))
    ensures SkipNewlines(ts, s.(pos := s.pos + 1)) == s.(pos := s.pos + 1)
  {
  }

  /** A closing brace that no NL follows is read as one token. */
  lemma CloseBrace(ts: seq<Token>, s: PState, open: nat)
    requires Ready(ts, s) && BracesAt(ts, open, s.pos)
    ensures SkipNewlines(ts, s) == s
    ensures Consume(ts, s, RBRACE, None) == Ok(s.(pos := s.pos + 1))
    ensures SkipNewlines(ts, s.(pos := s.pos + 1)) == s.(pos := s.pos + 1)
  {
  }

  /** Braces around an accepted product body are accepted, and the cursor
      stops after the closing brace when no NL follows it. */
  lemma ProductBlockAccepts(ts: seq<Token>, s: PState, body: PState)
    requires Ready(ts, s) && BracesAt(ts, s.pos, body.pos)
    requires ProductBody(ts, s.(pos := s.pos + 1)) == Ok(body)
    ensures ProductBlock(ts, s) == Ok(body.(pos := body.pos + 1))
  {
    OpenBrace(ts, s, body.pos);
    CloseBrace(ts, body, s.pos);
  }

  /** `PRODUCTO id` at the cursor, with id neither reserved nor already a
      product, and a token after it. */
  predicate NewProductAt(ts: seq<Token>, s: PState) {
    s.pos + 2 < |ts| && Keyword(ts[s.pos], "PRODUCTO") &&
    ts[s.pos + 1].kind == ID && ts[s.pos + 1].value !in RESERVED &&
    ts[s.pos + 1].value !in s.products
  }

  /** The head of a new product reads two tokens and records the
      identifier in the one product set. */
  lemma ProductHeadAccepts(ts: seq<Token>, s: PState)
    requires Ready(ts, s) && NewProductAt(ts, s)
    ensures ProductHead(ts, s) ==
      Ok(PState(s.pos + 2, s.carousels, s.products + {ts[s.pos + 1].value}))
  {
  }

  /** A new product's head, then an accepted block: the product is
      accepted with its identifier recorded before the block is read. */
  lemma ProductDefAccepts(ts: seq<Token>, s: PState, r: PState)
    requires Ready(ts, s) && NewProductAt(ts, s)
    requires ProductBlock(ts, PState(s.pos + 2, s.carousels, s.products + {ts[s.pos + 1].value})) == Ok(r)
    ensures ProductDef(ts, s) == Ok(r)
  {
    ProductHeadAccepts(ts, s);
  }

  /** Braces around the four valid settings are accepted in eighteen
      tokens. */
  lemma ValidProductBlock(ts: seq<Token>, s: PState)
    requires Ready(ts, s) && ProductBlockAt(ts, s.pos)
    ensures ProductBlock(ts, s) == Ok(s.(pos := s.pos + 18))
  {
    ProductBodyAccepts(ts, s.(pos := s.pos + 1));
    ProductBlockAccepts(ts, s, s.(pos := s.pos + 17));
  }

  /** A product whose identifier is new is accepted: it reads its twenty
      tokens and records the identifier in the program's product set. */
  lemma ProductAccepts(ts: seq<Token>, s: PState)
    requires Ready(ts, s) && ProductAt(ts, s.pos) && ts[s.pos + 1].value !in s.products
    ensures ProductDef(ts, s) ==
      Ok(PState(s.pos + 20, s.carousels, s.products + {ts[s.pos + 1].value}))
  {
    var s1 := PState(s.pos + 2, s.carousels, s.products + {ts[s.pos + 1].value});
    ValidProductBlock(ts, s1);
    ProductDefAccepts(ts, s, s1.(pos := s1.pos + 18));
  }

  /** A catalogue of one accepted product, followed by neither NL nor a
      further PRODUCTO, ends where that product ends. */
  lemma CatalogAccepts(ts: seq<Token>, s: PState, r: PState)
    requires Ready(ts, s) && Keyword(ts[s.pos], "PRODUCTO") && ProductDef(ts, s) == Ok(r)
    requires ts[r.pos].kind != NL && !Keyword(ts[r.pos], "PRODUCTO")
    ensures Catalog(ts, s) == Ok(r)
  {
    NoNewlines(ts, r);
    assert Catalog(ts, r) == Ok(r);
  }

  /** Braces around accepted parameters and an accepted catalogue are
      accepted, and the cursor stops after the closing brace when no NL
      follows it. */
  lemma CarouselBlockAccepts(ts: seq<Token>, s: PState, params: PState, catalog: PState)
    requires Ready(ts, s) && BracesAt(ts, s.pos, catalog.pos)
    requires Parameters(ts, s.(pos := s.pos + 1)) == Ok(params)
    requires ts[params.pos].kind != NL && Catalog(ts, params) == Ok(catalog)
    ensures CarouselBlock(ts, s) == Ok(catalog.(pos := catalog.pos + 1))
  {
    OpenBrace(ts, s, catalog.pos);
    NoNewlines(ts, params);
    CloseBrace(ts, catalog, s.pos);
  }

  /** A catalogue of one product whose identifier is new, closed by '}',
      is accepted. */
  lemma OneProductCatalog(ts: seq<Token>, s: PState)
    requires Ready(ts, s) && ProductAt(ts, s.pos) && ts[s.pos + 1].value !in s.products
    requires ts[s.pos + 20].kind == RBRACE
    ensures Catalog(ts, s) ==
      Ok(PState(s.pos + 20, s.carousels, s.products + {ts[s.pos + 1].value}))
  {
    ProductAccepts(ts, s);
    CatalogAccepts(ts, s, PState(s.pos + 20, s.carousels, s.products + {ts[s.pos + 1].value}));
  }

  /** A carousel's braces around its parameters and one product whose
      identifier is new are accepted: 30 tokens are read and the product is
      recorded. */
  lemma OneProductBlockAccepts(ts: seq<Token>, s: PState)
    requires Ready(ts, s) && CarouselBlockAt(ts, s.pos) && ts[s.pos + 10].value !in s.products
    ensures CarouselBlock(ts, s) ==
      Ok(PState(s.pos + 30, s.carousels, s.products + {ts[s.pos + 10].value}))
  {
    var params := s.(pos := s.pos + 9);
    ParametersAccepts(ts, s.(pos := s.pos + 1));
    OneProductCatalog(ts, params);
    var catalog := PState(s.pos + 29, s.carousels, s.products + {ts[s.pos + 10].value});
    CarouselBlockAccepts(ts, s, params, catalog);
  }

  /** `CARRUSEL id` at the cursor, with id neither reserved nor already a
      carousel, and a token after it. */
  predicate NewCarouselAt(ts: seq<Token>, s: PState) {
    s.pos + 2 < |ts| && Keyword(ts[s.pos], "CARRUSEL") &&
    ts[s.pos + 1].kind == ID && ts[s.pos + 1].value !in RESERVED &&
    ts[s.pos + 1].value !in s.carousels
  }

  /** The head of a new carousel reads two tokens and records the
      identifier. */
  lemma CarouselHeadAccepts(ts: seq<Token>, s: PState)
    requires Ready(ts, s) && NewCarouselAt(ts, s)
    ensures CarouselHead(ts, s) ==
      Ok(PState(s.pos + 2, s.carousels + {ts[s.pos + 1].value}, s.products))
  {
  }

  /** `CARRUSEL id` with id neither reserved nor already a carousel, then
      an accepted block: the carousel is accepted with id recorded before
      the block is read. */
  lemma CarouselDefAccepts(ts: seq<Token>, s: PState, r: PState)
    requires Ready(ts, s) && NewCarouselAt(ts, s)
    requires CarouselBlock(ts, PState(s.pos + 2, s.carousels + {ts[s.pos + 1].value}, s.products)) == Ok(r)
    ensures CarouselDef(ts, s) == Ok(r)
  {
    CarouselHeadAccepts(ts, s);
  }

  /** A carousel whose identifier is new, with its parameters and one
      product whose identifier is new, is accepted: it reads its 32 tokens
      and records both identifiers. */
  lemma CarouselAccepts(ts: seq<Token>, s: PState)
    requires Ready(ts, s) && CarouselAt(ts, s.pos)
    requires ts[s.pos + 1].value !in s.carousels && ts[s.pos + 12].value !in s.products
    ensures CarouselDef(ts, s) ==
      Ok(PState(s.pos + 32, s.carousels + {ts[s.pos + 1].value}, s.products + {ts[s.pos + 12].value}))
  {
    var s1 := PState(s.pos + 2, s.carousels + {ts[s.pos + 1].value}, s.products);
    assert ts[s1.pos + 10] == ts[s.pos + 12];
    OneProductBlockAccepts(ts, s1);
    CarouselDefAccepts(ts, s, PState(s.pos + 32, s1.carousels, s.products + {ts[s.pos + 12].value}));
  }

  /** A withdrawal or a restock of a defined product by a positive quantity
      passes its check, and the list ends at the token after it when that
      token is not a comma. */
  lemma QuantityAccepts(ts: seq<Token>, s: PState)
    requires Ready(ts, s) && QuantityAt(ts, s.pos) && ts[s.pos + 2].value in s.products
    requires s.pos + 6 < |ts| && ts[s.pos + 6].kind != COMMA
    ensures TransactionList(ts, s) == Ok(s.(pos := s.pos + 6))
  {
    assert Transaction(ts, s) == Ok(s.(pos := s.pos + 6));
  }

  /** `] ;` at p with no NL after the ';'. */
  predicate BlockCloseAt(ts: seq<Token>, p: nat) {
    p + 2 < |ts| && ts[p].kind == RBRACKET && SemicolonAt(ts, p + 1)
  }

  /** `TRANSACCIONES : [` at p with no NL after the bracket. */
  predicate TransactionHeadAt(ts: seq<Token>, p: nat) {
    p + 3 < |ts| && Keyword(ts[p], "TRANSACCIONES") && ts[p + 1].kind == COLON &&
    ts[p + 2].kind == LBRACKET && ts[p + 3].kind != NL
  }

  /** `] ;` with no NL after the ';' closes a transaction block. */
  lemma BlockEndAccepts(ts: seq<Token>, s: PState)
    requires Ready(ts, s) && BlockCloseAt(ts, s.pos)
    ensures BlockEnd(ts, s) == Ok(s.(pos := s.pos + 2))
  {
    NoNewlines(ts, s);
    SemicolonEnd(ts, s.(pos := s.pos + 1));
  }

  /** `TRANSACCIONES : [` with no NL after the bracket is read as three
      tokens. */
  lemma TransactionBlockOpen(ts: seq<Token>, s: PState)
    requires Ready(ts, s) && TransactionHeadAt(ts, s.pos)
    ensures Consume(ts, s, KW, Some("TRANSACCIONES")) == Ok(s.(pos := s.pos + 1))
    ensures Consume(ts, s.(pos := s.pos + 1), COLON, None) == Ok(s.(pos := s.pos + 2))
    ensures Consume(ts, s.(pos := s.pos + 2), LBRACKET, None) == Ok(s.(pos := s.pos + 3))
    ensures SkipNewlines(ts, s.(pos := s.pos + 3)) == s.(pos := s.pos + 3)
  {
  }

  /** `TRANSACCIONES : [ ] ;`, the empty list, is accepted. */
  lemma EmptyTransactionBlockAccepts(ts: seq<Token>, s: PState)
    requires Ready(ts, s) && TransactionHeadAt(ts, s.pos) && BlockCloseAt(ts, s.pos + 3)
    ensures TransactionBlock(ts, s) == Ok(s.(pos := s.pos + 5))
  {
    TransactionBlockOpen(ts, s);
    BlockEndAccepts(ts, s.(pos := s.pos + 3));
  }

  /** `TRANSACCIONES : [`, an accepted transaction list, then `] ;`: the
      block is accepted and ends after the ';'. */
  lemma TransactionBlockAccepts(ts: seq<Token>, s: PState, list: PState)
    requires Ready(ts, s) && TransactionHeadAt(ts, s.pos) && ts[s.pos + 3].kind != RBRACKET
    requires TransactionList(ts, s.(pos := s.pos + 3)) == Ok(list) && BlockCloseAt(ts, list.pos)
    ensures TransactionBlock(ts, s) == Ok(list.(pos := list.pos + 2))
  {
    TransactionBlockOpen(ts, s);
    BlockEndAccepts(ts, list);
  }

  /** With no CARRUSEL next, there are no definitions and nothing is read. */
  lemma NoDefinitions(ts: seq<Token>, s: PState)
    requires Ready(ts, s) && !Keyword(ts[s.pos], "CARRUSEL")
    ensures Definitions(ts, s) == Ok(s)
  {
  }

  /** With no query keyword next, there are no queries and nothing is read. */
  lemma NoQueries(ts: seq<Token>, s: PState)
    requires Ready(ts, s) && !IsQueryWord(ts[s.pos])
    ensures Queries(ts, s) == Ok(s)
  {
  }

  /** `ESTADO` or `ESTADISTICAS` at the cursor is a whole query of one token. */
  lemma QueryAccepts(ts: seq<Token>, s: PState)
    requires Ready(ts, s) && (Keyword(ts[s.pos], "ESTADO") || Keyword(ts[s.pos], "ESTADISTICAS"))
    ensures Query(ts, s) == Ok(s.(pos := s.pos + 1))
  {
  }

  /** `REPORTE ( string )` is a whole query of four tokens. */
  lemma ReportAccepts(ts: seq<Token>, s: PState)
    requires Ready(ts, s) && s.pos + 3 < |ts| && Keyword(ts[s.pos], "REPORTE")
    requires ts[s.pos + 1].kind == LPAREN && ts[s.pos + 2].kind == STRING && ts[s.pos + 3].kind == RPAREN
    ensures Query(ts, s) == Ok(s.(pos := s.pos + 4))
  {
  }

  /** An accepted query ended by a `;` that no NL or further query follows
      is the whole query loop. */
  lemma OneQueryAccepts(ts: seq<Token>, s: PState, q: PState)
    requires Ready(ts, s) && IsQueryWord(ts[s.pos]) && Query(ts, s) == Ok(q)
    requires SemicolonAt(ts, q.pos) && !IsQueryWord(ts[q.pos + 1])
    ensures Queries(ts, s) == Ok(q.(pos := q.pos + 1))
  {
    SemicolonEnd(ts, q);
    NoNewlines(ts, q.(pos := q.pos + 1));
    NoQueries(ts, q.(pos := q.pos + 1));
  }

  /** `CONTAR ( id )` of a defined product is a whole transaction of four
      tokens. */
  lemma CountAccepts(ts: seq<Token>, s: PState)
    requires Ready(ts, s) && s.pos + 3 < |ts| && Keyword(ts[s.pos], "CONTAR")
    requires ts[s.pos + 1].kind == LPAREN && ts[s.pos + 2].kind == ID && ts[s.pos + 3].kind == RPAREN
    requires ts[s.pos + 2].value in s.products
    ensures Transaction(ts, s) == Ok(s.(pos := s.pos + 4))
  {
  }

  /** A run of carousels that holds one accepted carousel, followed by
      neither NL nor a further CARRUSEL, ends where that carousel ends. */
  lemma DefinitionsAccepts(ts: seq<Token>, s: PState, r: PState)
    requires Ready(ts, s) && Keyword(ts[s.pos], "CARRUSEL") && CarouselDef(ts, s) == Ok(r)
    requires ts[r.pos].kind != NL && !Keyword(ts[r.pos], "CARRUSEL")
    ensures Definitions(ts, s) == Ok(r)
  {
    NoNewlines(ts, r);
    assert Definitions(ts, r) == Ok(r);
  }

  /** `SIMULAR {` at p with no NL after the brace. */
  predicate SimulationHeadAt(ts: seq<Token>, p: nat) {
    p + 2 < |ts| && Keyword(ts[p], "SIMULAR") && ts[p + 1].kind == LBRACE && ts[p + 2].kind != NL
  }

  /** `SIMULAR {` with no NL after the brace is read as two tokens. */
  lemma SimulationOpen(ts: seq<Token>, s: PState)
    requires Ready(ts, s) && SimulationHeadAt(ts, s.pos)
    ensures Consume(ts, s, KW, Some("SIMULAR")) == Ok(s.(pos := s.pos + 1))
    ensures SkipNewlines(ts, s.(pos := s.pos + 1)) == s.(pos := s.pos + 1)
    ensures Consume(ts, s.(pos := s.pos + 1), LBRACE, None) == Ok(s.(pos := s.pos + 2))
    ensures SkipNewlines(ts, s.(pos := s.pos + 2)) == s.(pos := s.pos + 2)
  {
  }

  /** EOF after the simulation, with no NL before it, ends the program. */
  lemma EofEnd(ts: seq<Token>, s: PState)
    requires Ready(ts, s) && ts[s.pos].kind == EOF
    ensures ProgramEnd(ts, s) == Ok(s.(pos := s.pos + 1))
  {
    NoNewlines(ts, s);
  }

  /** What the simulation rule reads after `SIMULAR {`: the transaction
      block, the NL after it, the queries and the closing brace. */
  function SimulationBody(ts: seq<Token>, s: PState): Result<PState>
    requires Ready(ts, s)
  {
    var block :- TransactionBlock(ts, s);
    QueriesAndClose(ts, SkipNewlines(ts, block))
  }

  /** The queries of a simulation and its closing brace. */
  function QueriesAndClose(ts: seq<Token>, s: PState): Result<PState>
    requires Ready(ts, s)
  {
    var queries :- Queries(ts, s);
    Consume(ts, queries, RBRACE, None)
  }

  /** After `SIMULAR {` the simulation rule reads its body. */
  lemma SimulationSplit(ts: seq<Token>, s: PState)
    requires Ready(ts, s) && SimulationHeadAt(ts, s.pos)
    ensures Simulation(ts, s) == SimulationBody(ts, s.(pos := s.pos + 2))
  {
    SimulationOpen(ts, s);
  }

  /** After an accepted transaction block that no NL follows, the body
      reads the queries and the closing brace. */
  lemma SimulationBodySplit(ts: seq<Token>, s: PState, block: PState)
    requires Ready(ts, s) && TransactionBlock(ts, s) == Ok(block) && ts[block.pos].kind != NL
    ensures SimulationBody(ts, s) == QueriesAndClose(ts, block)
  {
    NoNewlines(ts, block);
  }

  /** Accepted queries followed by `}` end the simulation after the brace. */
  lemma QueriesAndCloseAccepts(ts: seq<Token>, s: PState, queries: PState)
    requires Ready(ts, s) && Queries(ts, s) == Ok(queries) && ts[queries.pos].kind == RBRACE
    ensures QueriesAndClose(ts, s) == Ok(queries.(pos := queries.pos + 1))
  {
  }

  /** `SIMULAR {`, an accepted transaction block, accepted queries and `}`
      are accepted; the cursor stops after the closing brace. */
  lemma SimulationAccepts(ts: seq<Token>, s: PState, block: PState, queries: PState)
    requires Ready(ts, s) && SimulationHeadAt(ts, s.pos)
    requires TransactionBlock(ts, s.(pos := s.pos + 2)) == Ok(block)
    requires ts[block.pos].kind != NL && Queries(ts, block) == Ok(queries)
    requires ts[queries.pos].kind == RBRACE
    ensures Simulation(ts, s) == Ok(queries.(pos := queries.pos + 1))
  {
    SimulationSplit(ts, s);
    SimulationBodySplit(ts, s.(pos := s.pos + 2), block);
    QueriesAndCloseAccepts(ts, block, queries);
  }

  /** Accepted definitions, then an accepted simulation, then EOF: the
      whole program is accepted and the cursor stops past the EOF. */
  lemma ProgramAccepts(ts: seq<Token>, s: PState, defs: PState, sim: PState)
    requires Ready(ts, s) && ts[s.pos].kind != NL && Definitions(ts, s) == Ok(defs)
    requires ts[defs.pos].kind != NL && Simulation(ts, defs) == Ok(sim)
    requires ts[sim.pos].kind == EOF
    ensures Program(ts, s) == Ok(sim.(pos := sim.pos + 1))
  {
    NoNewlines(ts, s);
    NoNewlines(ts, defs);
    EofEnd(ts, sim);
  }

  // ---------------------------------------------------------------------------
  // One accepted program
  // ---------------------------------------------------------------------------

  /** The tokens of `SIMULAR { TRANSACCIONES : [ ] ; } EOF` on one line: no
      definitions and an empty transaction list. */
  predicate EmptySimulation(ts: seq<Token>) {
    |ts| == 9 &&
    ts[0] == Token(KW, "SIMULAR", 1, 1) && ts[1] == Token(LBRACE, "{", 1, 9) &&
    ts[2] == Token(KW, "TRANSACCIONES", 1, 11) && ts[3] == Token(COLON, ":", 1, 25) &&
    ts[4] == Token(LBRACKET, "[", 1, 27) && ts[5] == Token(RBRACKET, "]", 1, 29) &&
    ts[6] == Token(SEMI, ";", 1, 31) && ts[7] == Token(RBRACE, "}", 1, 33) &&
    ts[8] == Token(EOF, "", 1, 34)
  }

  /** That program is accepted from the initial state: all nine tokens are
      read and nothing is defined. */
  lemma EmptySimulationAccepted(ts: seq<Token>)
    requires EmptySimulation(ts)
    ensures Program(ts, PState(0, {}, {})) == Ok(PState(9, {}, {}))
  {
    var s := PState(0, {}, {});
    NoDefinitions(ts, s);
    EmptyTransactionBlockAccepts(ts, s.(pos := 2));
    NoQueries(ts, s.(pos := 7));
    SimulationAccepts(ts, s, s.(pos := 7), s.(pos := 7));
    ProgramAccepts(ts, s, s, s.(pos := 8));
  }
}
