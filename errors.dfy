/** The errors the validator stops at, and the result types the lexer and
    parser return instead of raising an exception. */
module Errors {

  /** The domain rules that the parser enforces while it reads the program. */
  datatype SemanticError =
    | ReservedId(id: string)          // an identifier spelled like a reserved word
    | DuplicateCarousel(id: string)   // a carousel identifier used twice
    | DuplicateProduct(id: string)    // a product identifier used twice anywhere
    | NonPositiveSlots                // ESPACIOS <= 0
    | NonPositiveCapacity             // CAPACIDAD <= 0
    | NegativePrice                   // PRECIO < 0
    | MinAboveMax                     // MINIMO > MAXIMO
    | UndefinedProduct(id: string)    // a transaction names an unknown product
    | NonPositiveQuantity             // a transaction quantity <= 0

  datatype Error =
    | Lexical(line: nat, col: nat, ch: char)   // no pattern matches at this character
    | Syntax(line: nat, col: nat)              // the current token is not what the rule needs
    | Semantic(kind: SemanticError)            // reported without a position
    | Conversion(text: string)                 // `int`/`float` refuse a token's value

  datatype Option<+T> = None | Some(value: T)

  /** Either a value or the first error; usable with `:-`. */
  datatype Result<+T> = Ok(value: T) | Err(error: Error) {
    predicate IsFailure() { Err? }

    function PropagateFailure<U>(): Result<U>
      requires Err?
    {
      Err(error)
    }

    function Extract(): T
      requires Ok?
    {
      value
    }
  }

  /** The outcome of a parser method that returns nothing: it either runs to
      the end or stops at the first error; usable with `:-`. */
  datatype Outcome = Pass | Fail(error: Error) {
    predicate IsFailure() { Fail? }

    function PropagateFailure(): Outcome
      requires Fail?
    {
      this
    }
  }
}
