/** Tokens delivered by the lexical scanner: the parser only asks whether a
    token is a number, an identifier, one of a set of lextants, or the
    end-of-input token. Source locations are not modelled. */
module Tokens {

  /** The reserved words (the `Kw` cases, the compiler's `Keyword` enum)
      and punctuation (the rest, its `Punctuator` enum) the parser tests
      for. */
  datatype Lextant =
    | KwMain | KwImmutable | KwPrint | KwNewline | KwTrue | KwFalse
    | OpenBrace | CloseBrace | Terminator | Separator | Assign
    | Add | Multiply | Greater

  /** One token. `NullToken` is what the scanner returns once the input is
      exhausted. */
  datatype Token =
    | NumberToken(value: int)
    | IdentifierToken(name: string)
    | LextantToken(lextant: Lextant)
    | NullToken
  {
    /** The token is one of the given lextants. Numbers, identifiers and
        the end-of-input token are never lextants. */
    predicate IsLextant(lextants: seq<Lextant>) {
      LextantToken? && lextant in lextants
    }
  }
}
