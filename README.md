# A verified model of the carousel DSL validator

`dsl_parser.py` checks programs written in a small language for automated
storage carousels. A program is a run of definitions followed by a simulation:

- each definition is a carousel (`CARRUSEL id { ... }`). Inside its braces come its parameters, the slot count (`ESPACIOS`) and the capacity (`CAPACIDAD`), and then its own catalogue of products. Each product has a price, a minimum and a maximum stock, and a criticality level;
- carousel identifiers and product identifiers are two separate namespaces. Products share theirs across all carousels, so a product identifier may be defined only once in the whole program;
- then comes one `SIMULAR` block. It holds a list of transactions (`RETIRAR`, `RESURTIR`, `CONTAR`) on defined products, and then queries (`ESTADO`, `ESTADISTICAS`, `REPORTE`).

The validator runs in two passes:

- a hand-written lexer (`tokenize`) turns the text into tokens with line and column;
- a recursive-descent `Parser` reads the tokens. It enforces the grammar and the domain rules, and stops at the first error.

The project models both passes and the way they are composed.

Module layout, following the source:

| module | file | what it holds |
|---|---|---|
| `Errors` | errors.dfy | the four kinds of error, `Result`, `Outcome` |
| `Tokens` | tokens.dfy | token kinds, `Token`, the 19 reserved words, the symbol table |
| `Scanners` | scanners.dfy | one greedy scanner per regular expression, with what each accepts |
| `Numbers` | numbers.dfy | `int(...)` and `float(...)` of a token value |
| `LexSpec` | lex_spec.dfy | the lexer as a recursive function `Lex` |
| `Lexer` | lexer.dfy | `tokenize` as the source runs it: a `while` loop, proved equal to `Lex` |
| `LexProps` | lex_props.dfy | what every lexer result satisfies |
| `ParseSpec` | parse_spec.dfy | one function per grammar rule, over a state (cursor, carousels, products) |
| `Parsing` | parser.dfy | class `Parser`: the cursor and the two identifier sets are fields, each rule is a method that updates them, each loop is a `while` loop |
| `ParseProps` | parse_props.dfy | the grammar and the domain rules as lemmas about the rule functions |
| `ParseAccept` | parse_accept.dfy | what the rules accept: for each rule, tokens that make it succeed and where it leaves the cursor; one whole program followed to its end |
| `Validator` | validator.dfy | tokenize then `programa`, and what holds end to end |

How the proofs fit together:

- Every imperative member is proved against a function.
  - `Lexer.Tokenize` ensures `r == Lex(text)`.
  - Every `Parser` method ensures that its outcome and the parser's new state are those of the rule function of the same name, started from the state the method was called in.
- The properties are proved about those functions.
- Where the source raises `DSLParseError`, the model returns the error.
  - The lexer returns `Err(Lexical(line, col, ch))`.
  - The parser returns `Err(Syntax(line, col))` or `Err(Semantic(kind))`, and every caller stops at once.

## Model

| member | source | states |
|---|---|---|
| Scanners.BlankMatch | dsl_parser.py:46 | the blank scanner takes a maximal run of spaces and tabs, and only those |
| Scanners.CommentMatch | dsl_parser.py:48 | a comment runs from `#` to just before the next newline or the end of the text |
| Scanners.StringMatch | dsl_parser.py:51 | a string match starts at a quote and is a whole literal: closing quote, escapes well formed |
| Scanners.StringRest | dsl_parser.py:51 | a non-zero length ends on the closing quote, and the body in between is well escaped |
| Scanners.DecimalMatch | dsl_parser.py:49 | a decimal match is digits, a dot and digits, and no digit follows it |
| Scanners.IntegerMatch | dsl_parser.py:50 | an integer match is a maximal run of digits; it is empty exactly when no digit is there |
| Scanners.WordMatch | dsl_parser.py:52 | an identifier match is a letter, then a maximal run of letters, digits and `_` |
| Scanners.BlankLen | dsl_parser.py:46 | the blank scanner's match stays inside the text |
| Scanners.CommentLen | dsl_parser.py:48 | the comment scanner's match stays inside the text |
| Scanners.StringLen | dsl_parser.py:51 | the string scanner's match stays inside the text |
| Scanners.DecimalLen | dsl_parser.py:49 | the decimal scanner's match stays inside the text |
| Scanners.IntegerLen | dsl_parser.py:50 | the integer scanner's match stays inside the text |
| Scanners.WordLen | dsl_parser.py:52 | the identifier scanner's match stays inside the text |
| Scanners.StringRestFound | dsl_parser.py:51 | a closed, well-escaped literal body is read up to its closing quote, not stopped early |
| Scanners.StringFound | dsl_parser.py:51 | a string literal at the offset is matched with its whole length |
| Scanners.StringAt | dsl_parser.py:51 | the string scanner matches exactly when a closed, well-escaped literal starts at the offset |
| Scanners.RunExact | dsl_parser.py:46-52 | a run of m matching characters that ends at the end of the text or at a non-matching character is exactly the greedy run |
| Scanners.DecimalFound | dsl_parser.py:49 | a decimal lexeme at the offset is covered by the match, and matched exactly when no digit follows |
| Scanners.DecimalAt | dsl_parser.py:49 | the decimal scanner matches exactly when digits, a dot and digits start at the offset |
| Numbers.IntOf | dsl_parser.py:227 | `int(s)` succeeds exactly on an optional sign followed by digits; on a digit string it gives the string's decimal value (no digit-count limit, see Left out) |
| Numbers.IntOfNumeral | dsl_parser.py:227 | `int` reads back every numeral, with and without a minus sign |
| Numbers.IntValue | dsl_parser.py:227 | the value of an n-digit string is below 10^n |
| Numbers.UnsignedValue | dsl_parser.py:261 | `float` of `digits[.digits]` is not negative |
| Numbers.IntValueNumeral | dsl_parser.py:227 | reading a numeral gives back the number it was written for |
| Numbers.IntValueZero | dsl_parser.py:228 | a digit string is worth 0 exactly when all its digits are `0` (so `ESPACIOS: 000` is refused) |
| Numbers.FloatOf | dsl_parser.py:261-262 | `float` of a decimal lexeme exists and is not negative; a negative value needs a leading `-` |
| Numbers.DecimalIsUnsigned | dsl_parser.py:49 | every decimal lexeme is an unsigned number without a sign |
| LexSpec.Scan | dsl_parser.py:70-131 | the patterns in the source's order; any match is non-empty and stays inside the text |
| LexSpec.ScanShape | dsl_parser.py:73-128 | what is skipped is blanks or a comment; an emitted lexeme has the shape of its kind; an identifier-shaped lexeme is KW exactly when it is reserved |
| LexSpec.SkipStep | dsl_parser.py:80-91 | a skipped match emits nothing and moves the position over the lexeme |
| LexSpec.EmitStep | dsl_parser.py:93-128 | an emitted token carries the position of its first character; scanning resumes after the lexeme |
| LexSpec.NextPos | dsl_parser.py:62-67 | one character moves the position strictly forward; the line changes exactly at a newline |
| LexSpec.PosAfterForward | dsl_parser.py:60-68 | `advance` never moves back, and moves strictly forward over a non-empty lexeme |
| LexSpec.LexFromLength | dsl_parser.py:70-133 | a scan from an offset gives at least the EOF token and at most one token per remaining character plus EOF |
| LexSpec.Lex | dsl_parser.py:54-134 | a token list has at least one token and at most one more token than the text has characters |
| Lexer.Advance | dsl_parser.py:60-68 | `advance`: the offset grows by the lexeme length, and line and column are those reached by reading it character by character |
| Lexer.Tokenize | dsl_parser.py:54-134 | the loop gives exactly `Lex(text)`: the same tokens, or the same first lexical error |
| Lexer.SkipInvariant | dsl_parser.py:80-91 | a skipped match keeps the loop invariant of `tokenize` |
| Lexer.PrependAppend | dsl_parser.py:76 | appending one token and then the rest is the same as prepending the tokens so far |
| LexProps.PosAfterConcat | dsl_parser.py:60-68 | advancing over `a + b` is advancing over `a`, then over `b` |
| LexProps.NewlinesConcat | dsl_parser.py:63-65 | the newline count of a concatenation is the sum of the counts |
| LexProps.PosAfterCounts | dsl_parser.py:60-68 | the line grows by the number of newlines read; on a line without one the column grows by the length |
| LexProps.SameLine | dsl_parser.py:66-67 | text without a newline moves only the column, by its length |
| LexProps.ScanNeverEof | dsl_parser.py:70-131 | no pattern emits EOF |
| LexProps.ScanNewlineToken | dsl_parser.py:73-78 | NL is emitted exactly at a newline character, and for that one character |
| LexProps.EofShift | dsl_parser.py:60-68 | the end position reached from after a match is the one reached from before it |
| LexProps.PrependEofLast | dsl_parser.py:76 | putting a token other than EOF in front keeps EOF last and alone |
| LexProps.LexFromEof | dsl_parser.py:70-133 | from any offset, a successful scan ends with exactly one EOF, at the position reached at the end of the text |
| LexProps.EofStep | dsl_parser.py:70-133 | one match keeps EOF last and alone, at the end position counted from before the match |
| LexProps.LexEof | dsl_parser.py:133 | a token list always ends with its only EOF, whose value is empty; its line is one more than the number of newlines in the text |
| LexProps.EmitShaped | dsl_parser.py:93-128 | the token emitted at an offset has the shape of its kind |
| LexProps.PrependShaped | dsl_parser.py:76 | prepending a well-shaped token keeps every token well shaped |
| LexProps.LexFromShapes | dsl_parser.py:73-133 | every token of a scan from any offset is well shaped |
| LexProps.ShapedStep | dsl_parser.py:73-128 | one match keeps every token of the rest of the scan well shaped |
| LexProps.LexShapes | dsl_parser.py:73-133 | every token has the shape of its kind: NL has the value `\n` (backslash, n); an ID is never reserved; a KW always is; INT, DECIMAL and STRING have their patterns' shapes |
| LexProps.LocatedShift | dsl_parser.py:60-68 | a token that stands at its lexeme after a match also does so counted from before the match |
| LexProps.LocatedSeqShift | dsl_parser.py:60-68 | the same for every token of a list |
| LexProps.PrependLocated | dsl_parser.py:76 | putting a located token in front keeps every token located |
| LexProps.EmitLocated | dsl_parser.py:96-126 | an emitted token's line and column are those of its lexeme's first character in the text |
| LexProps.EofLocated | dsl_parser.py:133 | the closing EOF stands at the end of the text |
| LexProps.LexFromLocated | dsl_parser.py:70-133 | every token of a scan from any offset stands at its own lexeme |
| LexProps.LexLocated | dsl_parser.py:70-133 | every token's line and column are those reached by reading the text up to an offset where the text spells its value (a newline for NL, the end of the text for EOF) |
| LexProps.NoNewlines | dsl_parser.py:63 | text without a newline character has no newlines to count |
| LexProps.ShapedNewlines | dsl_parser.py:96-126 | lexemes other than NL and STRING contain no newline |
| LexProps.EmitNewlines | dsl_parser.py:73-128 | the newlines a token accounts for are those of its lexeme |
| LexProps.SkippedNewlines | dsl_parser.py:80-91 | blanks and comments never contain a newline |
| LexProps.SkipNewlineFree | dsl_parser.py:80-91 | the text a skipped match covers holds no newline |
| LexProps.EmitNewlinesAt | dsl_parser.py:93-128 | the token emitted at an offset stands for the newlines of its lexeme |
| LexProps.PrependNewlines | dsl_parser.py:76 | the newline total of a list with one more token adds that token's count |
| LexProps.LexFromNewlines | dsl_parser.py:70-133 | the tokens of a scan from any offset account for every newline after that offset |
| LexProps.LexNewlines | dsl_parser.py:73-128 | the NL tokens plus the newlines inside string literals are all the newlines of the text: none is lost with blanks or comments |
| LexProps.SplitNewlines | dsl_parser.py:60-68 | the newlines after an offset are those of the next lexeme plus those after it |
| LexProps.SkipNewlinesStep | dsl_parser.py:80-91 | a skipped match keeps the newline count of the rest of the scan |
| LexProps.EmitNewlinesStep | dsl_parser.py:93-128 | an emitted token adds the newlines of its lexeme to the rest of the scan |
| LexProps.ScanNoMatch | dsl_parser.py:130-131 | the characters no pattern accepts, stated outright: not a newline, blank, `#`, symbol, digit or letter, and not a quote that opens a closed literal |
| LexProps.ErrorHere | dsl_parser.py:130-131 | where nothing matches, the scan fails with that character and the current position |
| LexProps.ErrorShift | dsl_parser.py:70-131 | a lexical error further on is still a lexical error at a matched character, from an earlier offset |
| LexProps.PrependErrors | dsl_parser.py:76 | putting tokens in front of a failed scan keeps its error |
| LexProps.LexFromError | dsl_parser.py:70-131 | a failing scan from any offset fails at a character no pattern accepts |
| LexProps.LexError | dsl_parser.py:130-131 | a lexical error names a character no pattern accepts, with the line and column reached by reading the text up to it |
| LexProps.DigitScan | dsl_parser.py:107-119 | a digit starts a DECIMAL when digits, a dot and a digit follow, and an INT otherwise |
| LexProps.LetterScan | dsl_parser.py:121-128 | a letter starts a word that is KW when reserved and ID otherwise |
| LexProps.DecimalExample | dsl_parser.py:107-112 | `12.5` is one DECIMAL token at 1:1, followed by EOF at 1:5 |
| LexProps.MinusExample | dsl_parser.py:130-131 | `-1.0` is refused by the lexer at 1:1 on `-` |
| ParseSpec.Consume | dsl_parser.py:152-167 | `consume` succeeds exactly when the current token matches; it then moves one token on; otherwise it fails at that token's position |
| ParseSpec.SkipNewlines | dsl_parser.py:169-171 | `skip_nl` stops on the first token that is not NL and changes nothing else |
| ParseSpec.StatementEnd | dsl_parser.py:173-182 | `fin` succeeds exactly on SEMI or NL, consumes at least one token, stops before a non-NL token and otherwise fails at the current token |
| ParseSpec.IntToken | dsl_parser.py:227 | `int(tok.value)` of a digit string is its value, up to CPython's digit limit; a refusal carries the value |
| ParseSpec.FloatToken | dsl_parser.py:261 | `float(tok.value)` of a decimal lexeme succeeds with a value that is not negative |
| ParseSpec.Program | dsl_parser.py:186-192 | an accepted `programa` moves forward and has just consumed an EOF token; on a lexer-made stream it never fails with a lexical, conversion (up to CPython's digit limit), reserved-identifier or negative-price error |
| ParseSpec.ProgramEnd | dsl_parser.py:191-192 | after the trailing NL tokens the EOF token is consumed; otherwise a syntax error |
| ParseSpec.Definitions | dsl_parser.py:195-198 | `definiciones` only moves forward and only adds identifiers |
| ParseSpec.CarouselDef | dsl_parser.py:201-221 | `def_carrusel` consumes at least one token and only adds identifiers; an accepted carousel's ID was not yet a carousel and is now recorded |
| ParseSpec.CarouselHead | dsl_parser.py:202-208 | the identifier after `CARRUSEL` was not yet a carousel; it is added; the products are untouched |
| ParseSpec.CarouselBlock | dsl_parser.py:210-221 | the braces, `parametros` and `catalogo` only move forward and only add products |
| ParseSpec.Parameters | dsl_parser.py:224-237 | `parametros` moves forward and adds no identifier |
| ParseSpec.IntSetting | dsl_parser.py:225-227 | keyword, colon and INT: exactly three tokens |
| ParseSpec.Catalog | dsl_parser.py:240-243 | `catalogo` only moves forward and only adds identifiers |
| ParseSpec.ProductDef | dsl_parser.py:246-289 | `def_producto` consumes at least one token and only adds identifiers; an accepted product's ID was not yet a product anywhere and is now recorded |
| ParseSpec.ProductHead | dsl_parser.py:247-253 | the identifier after `PRODUCTO` was not yet a product, in this carousel or an earlier one; it is added |
| ParseSpec.ProductBlock | dsl_parser.py:255-289 | the braces and the four settings move forward and add no identifier |
| ParseSpec.ProductBody | dsl_parser.py:259-286 | the four settings move forward and add no identifier |
| ParseSpec.Price | dsl_parser.py:259-264 | `PRECIO: decimal fin` moves forward; on a lexer-made stream it never fails with a negative price |
| ParseSpec.StockLimits | dsl_parser.py:266-276 | `MINIMO`/`MAXIMO` move forward and add no identifier |
| ParseSpec.Criticality | dsl_parser.py:278-286 | `CRITICIDAD` moves forward and adds no identifier |
| ParseSpec.Simulation | dsl_parser.py:292-306 | `simulacion` moves forward and adds no identifier |
| ParseSpec.Queries | dsl_parser.py:301-304 | the query loop does not move backward and adds no identifier |
| ParseSpec.Query | dsl_parser.py:377-392 | `consulta` moves forward; every failure is a syntax error |
| ParseSpec.TransactionBlock | dsl_parser.py:309-326 | `bloque_transacciones` moves forward and adds no identifier |
| ParseSpec.BlockEnd | dsl_parser.py:318-326 | the `]` and the required `fin` move forward; every failure is a syntax error |
| ParseSpec.TransactionList | dsl_parser.py:329-334 | `lista_tx` moves forward and adds no identifier |
| ParseSpec.MoreTransactions | dsl_parser.py:331-334 | the comma loop does not move backward and adds no identifier |
| ParseSpec.Transaction | dsl_parser.py:337-368 | `tx` moves forward and adds no identifier |
| ParseSpec.QuantityTransaction | dsl_parser.py:338-356 | `RETIRAR`/`RESURTIR` move forward and add no identifier |
| ParseSpec.CheckTransaction | dsl_parser.py:370-374 | passes exactly when the product is defined and the quantity positive; an unknown product is reported before the quantity |
| ParseProps.SkipNewlinesRun | dsl_parser.py:169-171 | every token `skip_nl` passes over is NL |
| ParseProps.SkipNewlinesIdle | dsl_parser.py:169-171 | `skip_nl` changes nothing exactly when the current token is not NL; it is idempotent |
| ParseProps.StatementEndShape | dsl_parser.py:173-182 | `fin` consumed a SEMI and then only NLs, or only NLs |
| ParseProps.DefinitionsStop | dsl_parser.py:195-198 | `definiciones` ends on a token that is not `CARRUSEL` |
| ParseProps.CatalogStop | dsl_parser.py:240-243 | `catalogo` ends on a token that is not `PRODUCTO` |
| ParseProps.QueriesStop | dsl_parser.py:301-304 | the query loop ends on a token that is not `ESTADO`, `ESTADISTICAS` or `REPORTE` |
| ParseProps.MoreTransactionsStop | dsl_parser.py:331-334 | `lista_tx` ends on a token that is not a comma |
| ParseProps.CarouselDuplicateRejected | dsl_parser.py:206-207 | `CARRUSEL` followed by an already defined carousel identifier is refused with a duplicate-carousel error for that identifier |
| ParseProps.SecondCarouselRejected | dsl_parser.py:196-208 | a carousel identifier defined once is refused at any later `CARRUSEL` |
| ParseProps.ProductDuplicateRejected | dsl_parser.py:251-252 | `PRODUCTO` followed by an already defined product identifier is refused with a duplicate-product error |
| ParseProps.SecondProductRejected | dsl_parser.py:241-253 | a product identifier defined once is refused at any later `PRODUCTO`, in any carousel |
| ParseProps.IntSettingReads | dsl_parser.py:225-227 | a setting is read exactly when keyword, colon and an INT that `int` accepts follow; its value is `int` of the token |
| ParseProps.ParametersRanges | dsl_parser.py:224-237 | `ESPACIOS <= 0` is refused before capacity is read; then `CAPACIDAD <= 0` is refused; otherwise the statement end decides |
| ParseProps.ParametersPositive | dsl_parser.py:224-237 | accepted parameters have positive slots and positive capacity |
| ParseProps.StockLimitsOrder | dsl_parser.py:266-276 | with both limits read, `MINIMO > MAXIMO` is refused and otherwise the statement end decides |
| ParseProps.StockLimitsOrdered | dsl_parser.py:266-276 | accepted limits satisfy `MINIMO <= MAXIMO` |
| ParseProps.CriticalityLevels | dsl_parser.py:278-285 | an accepted level is `ALTA`, `MEDIA` or `BAJA`; any other token after the colon is a syntax error at that token |
| ParseProps.QuantityTransactionChecked | dsl_parser.py:338-356 | an accepted `RETIRAR`/`RESURTIR` names a defined product and a quantity that `int` reads as positive |
| ParseProps.CountTransactionChecked | dsl_parser.py:358-365 | an accepted `CONTAR` names a defined product |
| ParseProps.TransactionProductDefined | dsl_parser.py:337-368 | every accepted transaction names a product defined earlier |
| ParseProps.TransactionWords | dsl_parser.py:367-368 | a transaction that does not start with a transaction word is a syntax error at that token |
| ParseProps.CountNeverNonPositive | dsl_parser.py:364 | `CONTAR` never fails the quantity check |
| ParseProps.QuantityTransactionRejects | dsl_parser.py:370-374 | a well-formed transaction with an unknown product is refused as undefined; a known product with quantity `<= 0` is refused as non-positive |
| ParseAccept.SemicolonEnd | dsl_parser.py:173-182 | `fin` on a `;` that no NL follows reads exactly that `;` |
| ParseAccept.SettingSteps | dsl_parser.py:225-227 | keyword, colon and a token of the right type are each consumed in turn |
| ParseAccept.IntSettingAccepts | dsl_parser.py:225-227 | keyword, colon and a digit string are read as a setting worth that number |
| ParseAccept.ParametersAccepts | dsl_parser.py:224-237 | `ESPACIOS : n ; CAPACIDAD : m ;` with n and m positive is accepted in eight tokens |
| ParseAccept.DecimalPrice | dsl_parser.py:261-263 | `float` of a decimal token succeeds and is not negative |
| ParseAccept.PriceAccepts | dsl_parser.py:259-264 | `PRECIO : d ;` with a decimal d is accepted in four tokens |
| ParseAccept.StockLimitsAccepts | dsl_parser.py:266-276 | `MINIMO : a ; MAXIMO : b ;` with a <= b is accepted in eight tokens |
| ParseAccept.CriticalityAccepts | dsl_parser.py:278-286 | `CRITICIDAD : level ;` with `ALTA`, `MEDIA` or `BAJA` is accepted in four tokens |
| ParseAccept.ProductBodyAccepts | dsl_parser.py:259-286 | the four settings in order are accepted in sixteen tokens |
| ParseAccept.NoNewlines | dsl_parser.py:169-171 | `skip_nl` on a token other than NL changes nothing |
| ParseAccept.OpenBrace | dsl_parser.py:255-257 | an opening brace with no NL around it is read as one token |
| ParseAccept.CloseBrace | dsl_parser.py:288-289 | a closing brace with no NL around it is read as one token |
| ParseAccept.ProductBlockAccepts | dsl_parser.py:255-289 | braces around accepted settings are accepted, ending after the closing brace |
| ParseAccept.ProductHeadAccepts | dsl_parser.py:247-253 | `PRODUCTO id` with id neither reserved nor defined reads two tokens and records id |
| ParseAccept.ProductDefAccepts | dsl_parser.py:246-289 | a new product's head and an accepted block make an accepted product |
| ParseAccept.ValidProductBlock | dsl_parser.py:255-289 | `{` with the four valid settings and `}` is accepted in eighteen tokens |
| ParseAccept.ProductAccepts | dsl_parser.py:246-289 | `PRODUCTO id { ... }` with a new id and valid settings is accepted in twenty tokens, with id recorded |
| ParseAccept.CatalogAccepts | dsl_parser.py:240-243 | one accepted product followed by a token other than NL or `PRODUCTO` is the whole catalogue |
| ParseAccept.OneProductCatalog | dsl_parser.py:240-243 | a catalogue of one valid new product before `}` is accepted, recording the product |
| ParseAccept.CarouselBlockAccepts | dsl_parser.py:210-221 | braces around accepted parameters and an accepted catalogue are accepted |
| ParseAccept.OneProductBlockAccepts | dsl_parser.py:210-221 | a carousel body of valid parameters and one valid new product is accepted in thirty tokens |
| ParseAccept.CarouselHeadAccepts | dsl_parser.py:202-208 | `CARRUSEL id` with id neither reserved nor defined reads two tokens and records id |
| ParseAccept.CarouselDefAccepts | dsl_parser.py:201-221 | a new carousel's head and an accepted block make an accepted carousel |
| ParseAccept.CarouselAccepts | dsl_parser.py:201-221 | a whole carousel with one product, both identifiers new, is accepted in thirty-two tokens, recording both |
| ParseAccept.QuantityAccepts | dsl_parser.py:329-356 | `RETIRAR`/`RESURTIR` of a defined product by a positive quantity, not followed by a comma, is the whole transaction list |
| ParseAccept.BlockEndAccepts | dsl_parser.py:318-326 | `] ;` with no NL after it closes a transaction block in two tokens |
| ParseAccept.TransactionBlockOpen | dsl_parser.py:310-313 | `TRANSACCIONES : [` is read as three tokens |
| ParseAccept.EmptyTransactionBlockAccepts | dsl_parser.py:309-326 | `TRANSACCIONES : [ ] ;` is accepted in five tokens |
| ParseAccept.TransactionBlockAccepts | dsl_parser.py:309-326 | the block head, an accepted transaction list and `] ;` are accepted |
| ParseAccept.NoDefinitions | dsl_parser.py:195-198 | with no `CARRUSEL` at the cursor, `definiciones` reads nothing |
| ParseAccept.NoQueries | dsl_parser.py:301-304 | with no query word at the cursor, the query loop reads nothing |
| ParseAccept.QueryAccepts | dsl_parser.py:378-383 | `ESTADO` or `ESTADISTICAS` at the cursor is a whole query of one token |
| ParseAccept.ReportAccepts | dsl_parser.py:384-389 | `REPORTE ( string )` is a whole query of four tokens |
| ParseAccept.OneQueryAccepts | dsl_parser.py:301-304 | an accepted query, then `;` with no NL or further query after it, is the whole query loop |
| ParseAccept.CountAccepts | dsl_parser.py:358-365 | `CONTAR ( id )` of a defined product is a whole transaction of four tokens, with no quantity to check |
| ParseAccept.DefinitionsAccepts | dsl_parser.py:195-198 | one accepted carousel followed by a token other than NL or `CARRUSEL` is the whole of `definiciones` |
| ParseAccept.SimulationOpen | dsl_parser.py:292-296 | `SIMULAR {` with no NL around the brace is read as two tokens |
| ParseAccept.EofEnd | dsl_parser.py:191-192 | an EOF token at the cursor ends the program |
| ParseAccept.SimulationSplit | dsl_parser.py:292-298 | after `SIMULAR {` the simulation continues with the transaction block |
| ParseAccept.SimulationBodySplit | dsl_parser.py:298-301 | after an accepted transaction block the simulation continues with the queries |
| ParseAccept.QueriesAndCloseAccepts | dsl_parser.py:301-306 | accepted queries followed by `}` end the simulation after the brace |
| ParseAccept.SimulationAccepts | dsl_parser.py:292-306 | `SIMULAR {`, an accepted transaction block, accepted queries and `}` make an accepted simulation |
| ParseAccept.ProgramAccepts | dsl_parser.py:186-192 | accepted definitions, an accepted simulation and EOF make an accepted program that ends after EOF |
| ParseAccept.EmptySimulationAccepted | dsl_parser.py:186-326 | the tokens of `SIMULAR { TRANSACCIONES : [ ] ; } EOF` are accepted from the initial state: all nine read, nothing defined |
| Parsing.Parser.constructor | dsl_parser.py:141-147 | the parser starts at the first token with no carousel and no product defined |
| Parsing.Parser.Consume | dsl_parser.py:160-167 | returns the current token and ends as `ParseSpec.Consume`; a failure leaves the state as it was |
| Parsing.Parser.SkipNewlines | dsl_parser.py:169-171 | the loop ends in the state `ParseSpec.SkipNewlines` gives |
| Parsing.Parser.StatementEnd | dsl_parser.py:173-182 | ends as `ParseSpec.StatementEnd` |
| Parsing.Parser.Program | dsl_parser.py:186-192 | ends as `ParseSpec.Program` |
| Parsing.Parser.Definitions | dsl_parser.py:195-198 | the `while` loop ends as `ParseSpec.Definitions` |
| Parsing.Parser.CarouselDef | dsl_parser.py:201-221 | ends as `ParseSpec.CarouselDef`, recording the identifier in the field |
| Parsing.Parser.Parameters | dsl_parser.py:224-237 | ends as `ParseSpec.Parameters` |
| Parsing.Parser.IntSetting | dsl_parser.py:225-227 | returns the value and the state that `ParseSpec.IntSetting` gives |
| Parsing.Parser.Catalog | dsl_parser.py:240-243 | the `while` loop ends as `ParseSpec.Catalog` |
| Parsing.Parser.ProductDef | dsl_parser.py:246-289 | ends as `ParseSpec.ProductDef`, recording the identifier in the field |
| Parsing.Parser.Price | dsl_parser.py:259-264 | ends as `ParseSpec.Price` |
| Parsing.Parser.StockLimits | dsl_parser.py:266-276 | ends as `ParseSpec.StockLimits` |
| Parsing.Parser.Criticality | dsl_parser.py:278-286 | ends as `ParseSpec.Criticality`, stepping over the level token directly |
| Parsing.Parser.Simulation | dsl_parser.py:292-306 | the query `while` loop ends as `ParseSpec.Simulation` |
| Parsing.Parser.TransactionBlock | dsl_parser.py:309-326 | ends as `ParseSpec.TransactionBlock` |
| Parsing.Parser.TransactionList | dsl_parser.py:329-334 | the comma `while` loop ends as `ParseSpec.TransactionList` |
| Parsing.Parser.Transaction | dsl_parser.py:337-368 | ends as `ParseSpec.Transaction` |
| Parsing.Parser.QuantityTransaction | dsl_parser.py:338-356 | ends as `ParseSpec.QuantityTransaction` |
| Parsing.Parser.CheckTransaction | dsl_parser.py:370-374 | passes exactly when the product is in the field and the quantity positive, and changes nothing |
| Parsing.Parser.Query | dsl_parser.py:377-392 | ends as `ParseSpec.Query` |
| Validator.LexedStream | dsl_parser.py:121-128 | no ID the lexer emits is reserved, and every INT and DECIMAL it emits has its pattern's shape |
| Validator.Validate | dsl_parser.py:407-409 | a lexical error is the outcome as it stands and the parser never runs; an accepted text was lexed and read up to a token inside the list |
| Validator.DeadGuards | dsl_parser.py:204-205 | in the model, on any text whose INT literals are within CPython's digit limit, the reserved-identifier checks (also 249-250), the negative-price check (262-263) and the `int`/`float` failures never fire; a lexical error is reported exactly when the lexer refused the text |
| Validator.AcceptedReadsAll | dsl_parser.py:407-409 | an accepted text has had every one of its tokens read, the single EOF last |
| Validator.Check | dsl_parser.py:407-409 | tokenize, then a new parser runs `programa`; the outcome is the one `Validator.Validate` gives |

## Left out

- `main` and the `__main__` block (dsl_parser.py:398-418): reading the file, the command line, printing and exit codes. `Validator.Check` models lines 407-409 only.
- Error messages are not modelled. An error keeps only what identifies it: its kind, the position for lexical and syntax errors, the character for a lexical error, and the identifier for identifier errors.
- `\d` is modelled as the ASCII digits `0`-`9`. Python's `\d` on `str` also matches other Unicode decimal digits, and `int` accepts those too.
- `int` is modelled on an optional sign and ASCII digits. Python also accepts surrounding blanks and `_` separators. Neither can reach `int` here, because lexer INT tokens are digits only.
- `float` is modelled as an exact rational value of `digits[.digits]` with an optional sign. Binary rounding, exponents, `inf` and `nan` are not modelled. A lexer DECIMAL never has them, and only the sign of the price is ever inspected.
- Numbers.IntOf: does not model CPython's limit on integer string conversion. Since Python 3.11 (and security releases of 3.7-3.10), `int` of a string with more than 4300 digits raises ValueError. The INT pattern has no length bound, so such a literal reaches `int` at dsl_parser.py:227, 234, 268, 273, 343 and 353. That ValueError is not a `DSLParseError`: the program stops with a traceback instead of a validation error. The model reads every digit string.
- Numbers.FloatOf: states only that a decimal lexeme gives a value that is not negative, and that a negative value needs a leading `-`. The exact value is not stated, because no rule uses it.
- Parsing.Parser methods: after a failure the parser's state is not specified, because the source abandons the parser when it raises.
- ParseSpec.CarouselDef: does not state that the recorded identifier is not reserved. On lexer output this follows from `Validator.LexedStream`.
- ParseSpec.ProductDef: same as the line above, for products.
- Most rule functions in `ParseSpec` state only progress and frame facts in their own contracts. The grammar and domain facts about them are the `ParseProps` lemmas.
- `Parser.current` (dsl_parser.py:149-150) and `Parser.match` (152-158) have no members of their own with a contract. They appear as `tokens[pos]` and the `Match`/`Matches` predicates.

Behaviours of the code that a reader might not expect, which the model follows:

- The lexer tries the patterns in a fixed order and takes the first that matches. It does not look for the longest match.
- A negative price such as `PRECIO: -1.0` fails in the lexer, with a lexical error at the `-`: no pattern matches a leading minus sign (`LexProps.MinusExample` states this for the text `-1.0`). So the `precio < 0` check at dsl_parser.py:262 never runs on any text (`Validator.DeadGuards`).
- A criticality that is not `ALTA`, `MEDIA` or `BAJA` is reported as a syntax error at that token (dsl_parser.py:280-285), while the other out-of-range values (a non-positive `ESPACIOS`, `CAPACIDAD` or quantity, a negative price) are semantic errors (`ParseProps.CriticalityLevels`).
- A newline inside a string literal is part of the STRING token. No NL token is emitted for it (`LexProps.LexNewlines`).
