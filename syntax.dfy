/** The values shared by the two stages of the front end: the tokens the
    tokenizer produces, the syntax tree the parser builds, and the
    failure-carrying wrappers that stand for the source's panics. */
module Syntax {

  datatype Option<+T> = None | Some(value: T)

  /** A stage either succeeds with a value or stops at its first error. */
  datatype Result<+T, +E> = Ok(value: T) | Err(error: E)

  /** A lexical token. The text of `Name`, `Integer` and `Char` is the slice
      of the input the token was scanned from; `Whitespace` is produced for
      each blank character and never kept. */
  datatype Token =
    | Paren(c: char)
    | Name(text: string)
    | Integer(text: string)
    | Char(text: string)
    | Whitespace

  /** The syntax tree: a program is a list of top-level expressions; an
      expression is an integer literal, a string literal or a call whose
      parameters are expressions. */
  datatype Ast =
    | Program(body: seq<Ast>)
    | IntegerLiteral(number: int)
    | StringLiteral(str: string)
    | CallExpression(name: string, params: seq<Ast>)

  /** Bounds of Rust's `i64`. */
  const I64Min: int := -0x8000_0000_0000_0000
  const I64Max: int := 0x7FFF_FFFF_FFFF_FFFF
}
