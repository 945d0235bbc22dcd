/** Tokens and data of the reader (kscm/scheme/syylex.h, read.c, scheme.h). */
module Syntax {

  datatype Kind =
    | End
    | LeftPar | RightPar | LeftSharpPar
    | Quote | BackQuote | Comma | CommaAt
    | Point
    | SymbolWord | NumberWord
    | True | False
    | Number2 | Number8 | Number10 | Number16 | Inexact | Exact
    | CharWord | StringWord

  /** A token with its text, which only words have. */
  datatype Token = Token(kind: Kind, text: string)

  function Mark(kind: Kind): Token {
    Token(kind, "")
  }

  /** An object. A symbol stands for its name: the symbol table has one object for each. A vector has
      the length it was given and the slots that were filled. */
  datatype Datum =
    | Null
    | Void
    | Bool(b: bool)
    | Int(n: int)
    | Sym(name: string)
    | Char(c: char)
    | Str(s: string)
    | Pair(car: Datum, cdr: Datum)
    | Vector(len: nat, slots: seq<Datum>)

  const INT_MAX: int := 0x7FFF_FFFF
}
