/** The scanner, seen only through its `next()` operation: a fixed sequence
    of tokens read left to right, followed by `NullToken` forever. */
module Scanning {
  import opened Tokens

  /** The token at position `i` of the input, or `NullToken` past its end. */
  function TokenAt(input: seq<Token>, i: nat): Token {
    if i < |input| then input[i] else NullToken
  }

  class Scanner {
    const input: seq<Token>
    var cursor: nat

    constructor (input: seq<Token>)
      ensures this.input == input && cursor == 0
    {
      this.input := input;
      cursor := 0;
    }

    /** Hands out the next token; at the end of the input, `NullToken`. */
    method Next() returns (t: Token)
      modifies this
      ensures t == TokenAt(input, old(cursor))
      ensures cursor == old(cursor) + 1
    {
      t := TokenAt(input, cursor);
      cursor := cursor + 1;
    }
  }
}
