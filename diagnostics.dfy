/** Syntax-error records, standing in for the messages the parser sends to
    its logger: the offending token and what was expected there. */
module Diagnostics {
  import opened Tokens

  /** What a failed check was looking for: a production, named as in the
      message text ("expression<2>", "end of program"), or a set of lextants. */
  datatype Expectation = Symbol(name: string) | OneOf(lextants: seq<Lextant>)

  datatype Diagnostic = Diagnostic(token: Token, expecting: Expectation)
}
