/** What the parser guarantees: how the helpers move the cursor, where a
    successful parse ends, and when each semantic check accepts or rejects. */
module ParseProps {
  import opened Errors
  import opened Tokens
  import opened Numbers
  import opened ParseSpec

  // ---------------------------------------------------------------------------
  // skip_nl and fin
  // ---------------------------------------------------------------------------

  /** skip_nl passes over NL tokens only. */
  lemma {:induction false} SkipNewlinesRun(ts: seq<Token>, s: PState)
    requires Ready(ts, s)
    ensures var r := SkipNewlines(ts, s);
      forall k :: s.pos <= k < r.pos ==> ts[k].kind == NL
    decreases |ts| - s.pos
  {
    if ts[s.pos].kind == NL {
      SkipNewlinesRun(ts, s.(pos := s.pos + 1));
    }
  }

  /** skip_nl stays put exactly when the current token is not NL, so a
      second skip_nl does nothing. */
  lemma SkipNewlinesIdle(ts: seq<Token>, s: PState)
    requires Ready(ts, s)
    ensures SkipNewlines(ts, s) == s <==> ts[s.pos].kind != NL
    ensures SkipNewlines(ts, SkipNewlines(ts, s)) == SkipNewlines(ts, s)
  {
    if ts[s.pos].kind == NL {
      assert SkipNewlines(ts, s).pos > s.pos by {
        assert SkipNewlines(ts, s) == SkipNewlines(ts, s.(pos := s.pos + 1));
      }
    }
  }

  /** fin accepts a SEMI followed by NL tokens, or a run of one or more NL
      tokens, and nothing else. */
  lemma StatementEndShape(ts: seq<Token>, s: PState)
    requires Ready(ts, s)
    ensures var r := StatementEnd(ts, s);
      r.Ok? ==>
        (ts[s.pos].kind == SEMI && forall k :: s.pos < k < r.value.pos ==> ts[k].kind == NL) ||
        (forall k :: s.pos <= k < r.value.pos ==> ts[k].kind == NL)
  {
    if ts[s.pos].kind == SEMI {
      SkipNewlinesRun(ts, s.(pos := s.pos + 1));
    } else if ts[s.pos].kind == NL {
      SkipNewlinesRun(ts, s);
    }
  }

  // ---------------------------------------------------------------------------
  // Where each loop stops
  // ---------------------------------------------------------------------------

  /** definiciones stops at the first token that is not CARRUSEL. */
  lemma {:induction false} DefinitionsStop(ts: seq<Token>, s: PState)
    requires Ready(ts, s)
    ensures var r := Definitions(ts, s);
      r.Ok? ==> !Keyword(ts[r.value.pos], "CARRUSEL")
    decreases |ts| - s.pos
  {
    if Keyword(ts[s.pos], "CARRUSEL") {
      var r1 := CarouselDef(ts, s);
      if r1.Ok? {
        DefinitionsStop(ts, SkipNewlines(ts, r1.value));
      }
    }
  }

  /** catalogo stops at the first token that is not PRODUCTO. */
  lemma {:induction false} CatalogStop(ts: seq<Token>, s: PState)
    requires Ready(ts, s)
    ensures var r := Catalog(ts, s);
      r.Ok? ==> !Keyword(ts[r.value.pos], "PRODUCTO")
    decreases |ts| - s.pos
  {
    if Keyword(ts[s.pos], "PRODUCTO") {
      var r1 := ProductDef(ts, s);
      if r1.Ok? {
        CatalogStop(ts, SkipNewlines(ts, r1.value));
      }
    }
  }

  /** The query loop stops at the first token that is not a query word. */
  lemma {:induction false} QueriesStop(ts: seq<Token>, s: PState)
    requires Ready(ts, s)
    ensures var r := Queries(ts, s);
      r.Ok? ==> !IsQueryWord(ts[r.value.pos])
    decreases |ts| - s.pos
  {
    if IsQueryWord(ts[s.pos]) {
      var r1 := Query(ts, s);
      if r1.Ok? {
        var r2 := StatementEnd(ts, r1.value);
        if r2.Ok? {
          QueriesStop(ts, SkipNewlines(ts, r2.value));
        }
      }
    }
  }

  /** lista_tx stops at the first token after a transaction that is not a
      comma. */
  lemma {:induction false} MoreTransactionsStop(ts: seq<Token>, s: PState)
    requires Ready(ts, s)
    ensures var r := MoreTransactions(ts, s);
      r.Ok? ==> ts[r.value.pos].kind != COMMA
    decreases |ts| - s.pos
  {
    if Matches(ts[s.pos], COMMA, None) {
      var s2 := SkipNewlines(ts, Consume(ts, s, COMMA, None).value);
      var r1 := Transaction(ts, s2);
      if r1.Ok? {
        MoreTransactionsStop(ts, r1.value);
      }
    }
  }

  // ---------------------------------------------------------------------------
  // Duplicate identifiers
  // ---------------------------------------------------------------------------

  /** A carousel whose identifier is already defined is rejected as a
      duplicate, before its body is read. */
  lemma CarouselDuplicateRejected(ts: seq<Token>, s: PState)
    requires Ready(ts, s) && s.pos + 1 < |ts|
    requires Keyword(ts[s.pos], "CARRUSEL") && ts[s.pos + 1].kind == ID
    requires ts[s.pos + 1].value !in RESERVED && ts[s.pos + 1].value in s.carousels
    ensures CarouselDef(ts, s) == Err(Semantic(DuplicateCarousel(ts[s.pos + 1].value)))
  {
    var s1 := Consume(ts, s, KW, Some("CARRUSEL")).value;
    assert Consume(ts, s1, ID, None).Ok?;
    assert CarouselHead(ts, s) == Err(Semantic(DuplicateCarousel(ts[s.pos + 1].value)));
  }

  /** Once a carousel is defined, a later definition spelling the same
      identifier, at any later place in the token list, is rejected (the
      lexer never gives a reserved word the ID type, so the reserved-word
      check before it passes). */
  lemma SecondCarouselRejected(ts: seq<Token>, s: PState, later: PState)
    requires LexerStream(ts) && Ready(ts, s) && CarouselDef(ts, s).Ok?
    requires Follows(ts, CarouselDef(ts, s).value, later) && later.pos + 1 < |ts|
    requires Keyword(ts[later.pos], "CARRUSEL")
    requires ts[later.pos + 1].kind == ID && ts[later.pos + 1].value == ts[s.pos + 1].value
    ensures CarouselDef(ts, later) == Err(Semantic(DuplicateCarousel(ts[s.pos + 1].value)))
  {
    assert LexerShaped(ts[later.pos + 1]);
    CarouselDuplicateRejected(ts, later);
  }

  /** A product whose identifier is already defined anywhere in the program
      is rejected as a duplicate. */
  lemma ProductDuplicateRejected(ts: seq<Token>, s: PState)
    requires Ready(ts, s) && s.pos + 1 < |ts|
    requires Keyword(ts[s.pos], "PRODUCTO") && ts[s.pos + 1].kind == ID
    requires ts[s.pos + 1].value !in RESERVED && ts[s.pos + 1].value in s.products
    ensures ProductDef(ts, s) == Err(Semantic(DuplicateProduct(ts[s.pos + 1].value)))
  {
    var s1 := Consume(ts, s, KW, Some("PRODUCTO")).value;
    assert Consume(ts, s1, ID, None).Ok?;
    assert ProductHead(ts, s) == Err(Semantic(DuplicateProduct(ts[s.pos + 1].value)));
  }

  /** Once a product is defined, a later definition with the same
      identifier is rejected, in the same carousel or in any later one:
      the product set is shared by the whole program. */
  lemma SecondProductRejected(ts: seq<Token>, s: PState, later: PState)
    requires LexerStream(ts) && Ready(ts, s) && ProductDef(ts, s).Ok?
    requires Follows(ts, ProductDef(ts, s).value, later) && later.pos + 1 < |ts|
    requires Keyword(ts[later.pos], "PRODUCTO")
    requires ts[later.pos + 1].kind == ID && ts[later.pos + 1].value == ts[s.pos + 1].value
    ensures ProductDef(ts, later) == Err(Semantic(DuplicateProduct(ts[s.pos + 1].value)))
  {
    assert LexerShaped(ts[later.pos + 1]);
    ProductDuplicateRejected(ts, later);
  }

  // ---------------------------------------------------------------------------
  // Range checks
  // ---------------------------------------------------------------------------

  /** word ':' INT reads the INT token two places on, through `int`. */
  lemma IntSettingReads(ts: seq<Token>, s: PState, word: string)
    requires Ready(ts, s)
    ensures var r := IntSetting(ts, s, word);
      r.Ok? <==>
        Keyword(ts[s.pos], word) && ts[s.pos + 1].kind == COLON &&
        ts[s.pos + 2].kind == INT && IntOf(ts[s.pos + 2].value).Some?
    ensures var r := IntSetting(ts, s, word);
      r.Ok? ==> r.value.1 == IntOf(ts[s.pos + 2].value).value
  {
  }

  /** ESPACIOS must be positive, then CAPACIDAD must be positive; each
      check fails with its own error, and when both hold only the statement
      end remains. */
  lemma ParametersRanges(ts: seq<Token>, s: PState)
    requires Ready(ts, s) && IntSetting(ts, s, "ESPACIOS").Ok?
    ensures var (s1, slots) := IntSetting(ts, s, "ESPACIOS").value;
      slots <= 0 ==> Parameters(ts, s) == Err(Semantic(NonPositiveSlots))
    ensures var (s1, slots) := IntSetting(ts, s, "ESPACIOS").value;
      slots > 0 && StatementEnd(ts, s1).Ok? &&
      IntSetting(ts, StatementEnd(ts, s1).value, "CAPACIDAD").Ok? ==>
        var (s3, capacity) := IntSetting(ts, StatementEnd(ts, s1).value, "CAPACIDAD").value;
        Parameters(ts, s) ==
          if capacity <= 0 then Err(Semantic(NonPositiveCapacity)) else StatementEnd(ts, s3)
  {
  }

  /** A successful parametros read a positive ESPACIOS and a positive
      CAPACIDAD. */
  lemma ParametersPositive(ts: seq<Token>, s: PState)
    requires Ready(ts, s) && Parameters(ts, s).Ok?
    ensures IntSetting(ts, s, "ESPACIOS").Ok?
    ensures var (s1, slots) := IntSetting(ts, s, "ESPACIOS").value;
      slots > 0 && StatementEnd(ts, s1).Ok? &&
      IntSetting(ts, StatementEnd(ts, s1).value, "CAPACIDAD").Ok? &&
      IntSetting(ts, StatementEnd(ts, s1).value, "CAPACIDAD").value.1 > 0
  {
  }

  /** MINIMO may equal MAXIMO but not exceed it: once both are read and the
      statement after MINIMO ends, the limits decide between MinAboveMax
      and the final statement end. */
  lemma StockLimitsOrder(ts: seq<Token>, s: PState)
    requires Ready(ts, s) && IntSetting(ts, s, "MINIMO").Ok?
    requires StatementEnd(ts, IntSetting(ts, s, "MINIMO").value.0).Ok?
    requires IntSetting(ts, StatementEnd(ts, IntSetting(ts, s, "MINIMO").value.0).value, "MAXIMO").Ok?
    ensures var (s1, minimum) := IntSetting(ts, s, "MINIMO").value;
      var (s3, maximum) := IntSetting(ts, StatementEnd(ts, s1).value, "MAXIMO").value;
      StockLimits(ts, s) ==
        if minimum > maximum then Err(Semantic(MinAboveMax)) else StatementEnd(ts, s3)
  {
  }

  /** A successful stock-limits statement read MINIMO <= MAXIMO. */
  lemma StockLimitsOrdered(ts: seq<Token>, s: PState)
    requires Ready(ts, s) && StockLimits(ts, s).Ok?
    ensures IntSetting(ts, s, "MINIMO").Ok?
    ensures var (s1, minimum) := IntSetting(ts, s, "MINIMO").value;
      StatementEnd(ts, s1).Ok? &&
      IntSetting(ts, StatementEnd(ts, s1).value, "MAXIMO").Ok? &&
      minimum <= IntSetting(ts, StatementEnd(ts, s1).value, "MAXIMO").value.1
  {
  }

  /** CRITICIDAD takes exactly ALTA, MEDIA or BAJA: anything else after the
      colon is a syntax error at that token. */
  lemma CriticalityLevels(ts: seq<Token>, s: PState)
    requires Ready(ts, s)
    ensures var r := Criticality(ts, s);
      r.Ok? ==> s.pos + 2 < |ts| && IsCriticality(ts[s.pos + 2])
    ensures (Keyword(ts[s.pos], "CRITICIDAD") && ts[s.pos + 1].kind == COLON &&
             !IsCriticality(ts[s.pos + 2])) ==>
      Criticality(ts, s) == Err(SyntaxAt(ts[s.pos + 2]))
  {
  }

  // ---------------------------------------------------------------------------
  // Transactions
  // ---------------------------------------------------------------------------

  /** A successful RETIRAR or RESURTIR names a defined product and a
      positive quantity. */
  lemma QuantityTransactionChecked(ts: seq<Token>, s: PState, word: string)
    requires Ready(ts, s) && QuantityTransaction(ts, s, word).Ok?
    ensures s.pos + 4 < |ts| && ts[s.pos + 2].kind == ID && ts[s.pos + 4].kind == INT
    ensures ts[s.pos + 2].value in s.products
    ensures IntOf(ts[s.pos + 4].value).Some? && IntOf(ts[s.pos + 4].value).value > 0
  {
  }

  /** A successful CONTAR names a defined product. */
  lemma CountTransactionChecked(ts: seq<Token>, s: PState)
    requires Ready(ts, s) && Keyword(ts[s.pos], "CONTAR") && Transaction(ts, s).Ok?
    ensures s.pos + 2 < |ts| && ts[s.pos + 2].kind == ID
    ensures ts[s.pos + 2].value in s.products
  {
  }

  /** Every successful transaction names a product defined before it. */
  lemma TransactionProductDefined(ts: seq<Token>, s: PState)
    requires Ready(ts, s) && Transaction(ts, s).Ok?
    ensures s.pos + 2 < |ts| && ts[s.pos + 2].kind == ID
    ensures ts[s.pos + 2].value in s.products
  {
    if Keyword(ts[s.pos], "RETIRAR") {
      QuantityTransactionChecked(ts, s, "RETIRAR");
    } else if Keyword(ts[s.pos], "RESURTIR") {
      QuantityTransactionChecked(ts, s, "RESURTIR");
    } else {
      CountTransactionChecked(ts, s);
    }
  }

  /** Only RETIRAR, RESURTIR and CONTAR start a transaction; any other
      token is a syntax error there. */
  lemma TransactionWords(ts: seq<Token>, s: PState)
    requires Ready(ts, s)
    ensures !IsTransactionWord(ts[s.pos]) ==> Transaction(ts, s) == Err(SyntaxAt(ts[s.pos]))
  {
  }

  /** CONTAR passes the fixed quantity 1, so it never fails the quantity
      check. */
  lemma CountNeverNonPositive(ts: seq<Token>, s: PState)
    requires Ready(ts, s) && Keyword(ts[s.pos], "CONTAR")
    ensures Transaction(ts, s) != Err(Semantic(NonPositiveQuantity))
  {
  }

  /** A well-formed RETIRAR or RESURTIR is checked right after its ')': an
      unknown product is reported first, then a quantity that is not
      positive. */
  lemma QuantityTransactionRejects(ts: seq<Token>, s: PState, word: string)
    requires Ready(ts, s) && s.pos + 5 < |ts|
    requires Keyword(ts[s.pos], word) && ts[s.pos + 1].kind == LPAREN && ts[s.pos + 2].kind == ID
    requires ts[s.pos + 3].kind == COMMA && ts[s.pos + 4].kind == INT && ts[s.pos + 5].kind == RPAREN
    requires IntOf(ts[s.pos + 4].value).Some?
    ensures ts[s.pos + 2].value !in s.products ==>
      QuantityTransaction(ts, s, word) == Err(Semantic(UndefinedProduct(ts[s.pos + 2].value)))
    ensures ts[s.pos + 2].value in s.products && IntOf(ts[s.pos + 4].value).value <= 0 ==>
      QuantityTransaction(ts, s, word) == Err(Semantic(NonPositiveQuantity))
  {
  }
}
