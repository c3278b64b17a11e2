/** The recursive-descent parser as the source runs it: an object holding the
    token list, a cursor and the two sets of identifiers defined so far, with
    one method per grammar rule.  Where the source raises an exception a
    method returns `Fail` and its callers stop at once (`:-`).  Each method is
    proved to end exactly as the rule function of the same name in ParseSpec
    says, from the state it was called in. */
module Parsing {
  import opened Errors
  import opened Tokens
  import opened ParseSpec

  class Parser {
    const tokens: seq<Token>
    var pos: nat
    var carousels: set<string>
    var products: set<string>

    /** The parser's state as the rule functions see it. */
    function St(): PState
      reads this
    {
      PState(pos, carousels, products)
    }

    /** The cursor is on a token of a list that ends with EOF. */
    predicate Valid()
      reads this
    {
      Ready(tokens, St())
    }

    /** The method's outcome and the parser's new state are the ones the rule
        function gives; after a failure the state is not specified, since the
        source abandons the parser when it raises. */
    ghost predicate Agrees(o: Outcome, r: Result<PState>)
      reads this
    {
      match r
      case Ok(s) => o == Pass && St() == s
      case Err(e) => o == Fail(e)
    }

    constructor (tokens: seq<Token>)
      requires EndsWithEof(tokens)
      ensures this.tokens == tokens && St() == PState(0, {}, {})
      ensures Valid()
    {
      this.tokens := tokens;
      pos := 0;
      carousels := {};
      products := {};
    }

    // -------------------------------------------------------------------------
    // Helpers
    // -------------------------------------------------------------------------

    /** `match`: whether the current token has the type and, when one is
        given, the value. */
    predicate Match(kind: Kind, value: Option<string>)
      requires Valid()
      reads this
    {
      Matches(tokens[pos], kind, value)
    }

    /** `consume`: returns the current token and moves past it, or fails at it
        and leaves the cursor where it is. */
    method Consume(kind: Kind, value: Option<string>) returns (o: Outcome, tok: Token)
      requires Valid()
      modifies this
      ensures tok == old(tokens[pos])
      ensures Agrees(o, ParseSpec.Consume(tokens, old(St()), kind, value))
      ensures o.Fail? ==> St() == old(St())
    {
      tok := tokens[pos];
      if !Match(kind, value) {
        return Fail(SyntaxAt(tok)), tok;
      }
      pos := pos + 1;
      o := Pass;
    }

    /** `skip_nl` */
    method SkipNewlines()
      requires Valid()
      modifies this
      ensures St() == ParseSpec.SkipNewlines(tokens, old(St()))
    {
      while Match(NL, None)
        invariant Valid()
        invariant ParseSpec.SkipNewlines(tokens, St()) == ParseSpec.SkipNewlines(tokens, old(St()))
        decreases |tokens| - pos
      {
        var _, _ := Consume(NL, None);
      }
    }

    /** `fin` */
    method StatementEnd() returns (o: Outcome)
      requires Valid()
      modifies this
      ensures Agrees(o, ParseSpec.StatementEnd(tokens, old(St())))
    {
      if Match(SEMI, None) {
        var _, _ := Consume(SEMI, None);
        SkipNewlines();
      } else if Match(NL, None) {
        SkipNewlines();
      } else {
        return Fail(SyntaxAt(tokens[pos]));
      }
      o := Pass;
    }

    // -------------------------------------------------------------------------
    // programa, definiciones, def_carrusel, parametros
    // -------------------------------------------------------------------------

    /** `programa`; on success the cursor has passed the EOF token. */
    method Program() returns (o: Outcome)
      requires Valid()
      modifies this
      ensures Agrees(o, ParseSpec.Program(tokens, old(St())))
    {
      SkipNewlines();
      :- Definitions();
      SkipNewlines();
      :- Simulation();
      SkipNewlines();
      var _ :- Consume(EOF, None);
      o := Pass;
    }

    /** `definiciones` */
    method Definitions() returns (o: Outcome)
      requires Valid()
      modifies this
      ensures Agrees(o, ParseSpec.Definitions(tokens, old(St())))
    {
      ghost var whole := ParseSpec.Definitions(tokens, St());
      while Match(KW, Some("CARRUSEL"))
        invariant Valid()
        invariant ParseSpec.Definitions(tokens, St()) == whole
        decreases |tokens| - pos
      {
        :- CarouselDef();
        SkipNewlines();
      }
      o := Pass;
    }

    /** `def_carrusel` */
    method CarouselDef() returns (o: Outcome)
      requires Valid()
      modifies this
      ensures Agrees(o, ParseSpec.CarouselDef(tokens, old(St())))
    {
      var _ :- Consume(KW, Some("CARRUSEL"));
      var idToken :- Consume(ID, None);
      var id := idToken.value;
      if id in RESERVED {
        return Fail(Semantic(ReservedId(id)));
      }
      if id in carousels {
        return Fail(Semantic(DuplicateCarousel(id)));
      }
      carousels := carousels + {id};
      SkipNewlines();
      var _ :- Consume(LBRACE, None);
      SkipNewlines();
      :- Parameters();
      SkipNewlines();
      :- Catalog();
      SkipNewlines();
      var _ :- Consume(RBRACE, None);
      SkipNewlines();
      o := Pass;
    }

    /** `parametros` */
    method Parameters() returns (o: Outcome)
      requires Valid()
      modifies this
      ensures Agrees(o, ParseSpec.Parameters(tokens, old(St())))
    {
      var slots :- IntSetting("ESPACIOS");
      if slots <= 0 {
        return Fail(Semantic(NonPositiveSlots));
      }
      :- StatementEnd();
      var capacity :- IntSetting("CAPACIDAD");
      if capacity <= 0 {
        return Fail(Semantic(NonPositiveCapacity));
      }
      o := StatementEnd();
    }

    /** A keyword, ':' and an INT token, giving `int` of its value. */
    method IntSetting(word: string) returns (o: Outcome, n: int)
      requires Valid()
      modifies this
      ensures match ParseSpec.IntSetting(tokens, old(St()), word)
        case Ok((s, v)) => o == Pass && St() == s && n == v
        case Err(e) => o == Fail(e)
    {
      n := 0;
      var _ :- Consume(KW, Some(word));
      var _ :- Consume(COLON, None);
      var token :- Consume(INT, None);
      var value := IntToken(token);
      if value.Err? {
        return Fail(value.error), 0;
      }
      o, n := Pass, value.value;
    }

    // -------------------------------------------------------------------------
    // catalogo, def_producto
    // -------------------------------------------------------------------------

    /** `catalogo` */
    method Catalog() returns (o: Outcome)
      requires Valid()
      modifies this
      ensures Agrees(o, ParseSpec.Catalog(tokens, old(St())))
    {
      ghost var whole := ParseSpec.Catalog(tokens, St());
      while Match(KW, Some("PRODUCTO"))
        invariant Valid()
        invariant ParseSpec.Catalog(tokens, St()) == whole
        decreases |tokens| - pos
      {
        :- ProductDef();
        SkipNewlines();
      }
      o := Pass;
    }

    /** `def_producto`: the header and the braces; the four settings are read
        by Price, StockLimits and Criticality in turn. */
    method ProductDef() returns (o: Outcome)
      requires Valid()
      modifies this
      ensures Agrees(o, ParseSpec.ProductDef(tokens, old(St())))
    {
      var _ :- Consume(KW, Some("PRODUCTO"));
      var idToken :- Consume(ID, None);
      var id := idToken.value;
      if id in RESERVED {
        return Fail(Semantic(ReservedId(id)));
      }
      if id in products {
        return Fail(Semantic(DuplicateProduct(id)));
      }
      products := products + {id};
      SkipNewlines();
      var _ :- Consume(LBRACE, None);
      SkipNewlines();
      :- Price();
      :- StockLimits();
      :- Criticality();
      var _ :- Consume(RBRACE, None);
      SkipNewlines();
      o := Pass;
    }

    /** The price setting, inside `def_producto`. */
    method Price() returns (o: Outcome)
      requires Valid()
      modifies this
      ensures Agrees(o, ParseSpec.Price(tokens, old(St())))
    {
      var _ :- Consume(KW, Some("PRECIO"));
      var _ :- Consume(COLON, None);
      var priceToken :- Consume(DECIMAL, None);
      var price := FloatToken(priceToken);
      if price.Err? {
        return Fail(price.error);
      }
      if price.value < 0.0 {
        return Fail(Semantic(NegativePrice));
      }
      o := StatementEnd();
    }

    /** MINIMO and MAXIMO, inside `def_producto` */
    method StockLimits() returns (o: Outcome)
      requires Valid()
      modifies this
      ensures Agrees(o, ParseSpec.StockLimits(tokens, old(St())))
    {
      var minimum :- IntSetting("MINIMO");
      :- StatementEnd();
      var maximum :- IntSetting("MAXIMO");
      if minimum > maximum {
        return Fail(Semantic(MinAboveMax));
      }
      o := StatementEnd();
    }

    /** CRITICIDAD, inside `def_producto`: the level token is stepped over
        directly, without `consume`. */
    method Criticality() returns (o: Outcome)
      requires Valid()
      modifies this
      ensures Agrees(o, ParseSpec.Criticality(tokens, old(St())))
    {
      var _ :- Consume(KW, Some("CRITICIDAD"));
      var _ :- Consume(COLON, None);
      if Match(KW, Some("ALTA")) || Match(KW, Some("MEDIA")) || Match(KW, Some("BAJA")) {
        pos := pos + 1;
      } else {
        return Fail(SyntaxAt(tokens[pos]));
      }
      o := StatementEnd();
    }

    // -------------------------------------------------------------------------
    // simulacion, bloque_transacciones, lista_tx, tx, consulta
    // -------------------------------------------------------------------------

    /** `simulacion`, with its loop over the queries. */
    method Simulation() returns (o: Outcome)
      requires Valid()
      modifies this
      ensures Agrees(o, ParseSpec.Simulation(tokens, old(St())))
    {
      var _ :- Consume(KW, Some("SIMULAR"));
      SkipNewlines();
      var _ :- Consume(LBRACE, None);
      SkipNewlines();
      :- TransactionBlock();
      SkipNewlines();
      ghost var queries := ParseSpec.Queries(tokens, St());
      while Match(KW, Some("ESTADO")) || Match(KW, Some("ESTADISTICAS")) || Match(KW, Some("REPORTE"))
        invariant Valid()
        invariant ParseSpec.Queries(tokens, St()) == queries
        decreases |tokens| - pos
      {
        :- Query();
        :- StatementEnd();
        SkipNewlines();
      }
      var _ :- Consume(RBRACE, None);
      o := Pass;
    }

    /** `bloque_transacciones` */
    method TransactionBlock() returns (o: Outcome)
      requires Valid()
      modifies this
      ensures Agrees(o, ParseSpec.TransactionBlock(tokens, old(St())))
    {
      var _ :- Consume(KW, Some("TRANSACCIONES"));
      var _ :- Consume(COLON, None);
      var _ :- Consume(LBRACKET, None);
      SkipNewlines();
      if !Match(RBRACKET, None) {
        :- TransactionList();
      }
      SkipNewlines();
      var _ :- Consume(RBRACKET, None);
      if Match(SEMI, None) || Match(NL, None) {
        o := StatementEnd();
      } else {
        o := Fail(SyntaxAt(tokens[pos]));
      }
    }

    /** `lista_tx` */
    method TransactionList() returns (o: Outcome)
      requires Valid()
      modifies this
      ensures Agrees(o, ParseSpec.TransactionList(tokens, old(St())))
    {
      o := Transaction();
      if o.Fail? {
        return;
      }
      ghost var rest := MoreTransactions(tokens, St());
      while Match(COMMA, None)
        invariant Valid()
        invariant MoreTransactions(tokens, St()) == rest
        decreases |tokens| - pos
      {
        var _, _ := Consume(COMMA, None);
        SkipNewlines();
        :- Transaction();
      }
      o := Pass;
    }

    /** `tx` */
    method Transaction() returns (o: Outcome)
      requires Valid()
      modifies this
      ensures Agrees(o, ParseSpec.Transaction(tokens, old(St())))
    {
      if Match(KW, Some("RETIRAR")) {
        o := QuantityTransaction("RETIRAR");
        return;
      }
      if Match(KW, Some("RESURTIR")) {
        o := QuantityTransaction("RESURTIR");
        return;
      }
      if Match(KW, Some("CONTAR")) {
        var _, _ := Consume(KW, Some("CONTAR"));
        var _ :- Consume(LPAREN, None);
        var idToken :- Consume(ID, None);
        var _ :- Consume(RPAREN, None);
        o := CheckTransaction(idToken.value, 1);
        return;
      }
      o := Fail(SyntaxAt(tokens[pos]));
    }

    /** The RETIRAR and RESURTIR branches of `tx`, which read alike. */
    method QuantityTransaction(word: string) returns (o: Outcome)
      requires Valid()
      modifies this
      ensures Agrees(o, ParseSpec.QuantityTransaction(tokens, old(St()), word))
    {
      var _ :- Consume(KW, Some(word));
      var _ :- Consume(LPAREN, None);
      var idToken :- Consume(ID, None);
      var _ :- Consume(COMMA, None);
      var quantityToken :- Consume(INT, None);
      var quantity := IntToken(quantityToken);
      if quantity.Err? {
        return Fail(quantity.error);
      }
      var _ :- Consume(RPAREN, None);
      o := CheckTransaction(idToken.value, quantity.value);
    }

    /** `check_tx_semantics`: reads the product set and changes nothing. */
    method CheckTransaction(id: string, quantity: int) returns (o: Outcome)
      ensures o.Pass? <==> id in products && quantity > 0
      ensures o == ParseSpec.CheckTransaction(products, id, quantity)
    {
      if id !in products {
        return Fail(Semantic(UndefinedProduct(id)));
      }
      if quantity <= 0 {
        return Fail(Semantic(NonPositiveQuantity));
      }
      o := Pass;
    }

    /** `consulta` */
    method Query() returns (o: Outcome)
      requires Valid()
      modifies this
      ensures Agrees(o, ParseSpec.Query(tokens, old(St())))
    {
      if Match(KW, Some("ESTADO")) {
        var _, _ := Consume(KW, Some("ESTADO"));
        return Pass;
      }
      if Match(KW, Some("ESTADISTICAS")) {
        var _, _ := Consume(KW, Some("ESTADISTICAS"));
        return Pass;
      }
      if Match(KW, Some("REPORTE")) {
        var _, _ := Consume(KW, Some("REPORTE"));
        var _ :- Consume(LPAREN, None);
        var _ :- Consume(STRING, None);
        var _ :- Consume(RPAREN, None);
        return Pass;
      }
      o := Fail(SyntaxAt(tokens[pos]));
    }
  }
}
