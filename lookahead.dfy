/** The parser's state as a value: the scanner's input and position, the
    two tokens the parser holds (`nowReading`, the lookahead, and
    `previouslyRead`, the one just consumed), and the diagnostics reported
    so far, oldest first. */
module Lookahead {
  import opened Tokens
  import opened Scanning
  import opened Diagnostics

  datatype Cursor = Cursor(input: seq<Token>, pos: nat, nowReading: Token, previouslyRead: Token, log: seq<Diagnostic>)

  /** A parser freshly built over the input: no token read, nothing reported. */
  function Initial(input: seq<Token>): Cursor {
    Cursor(input, 0, NullToken, NullToken, [])
  }

  /** Tokens not yet consumed: those the scanner still holds, plus the
      lookahead unless it is the end-of-input token. */
  function Remaining(c: Cursor): nat {
    (if c.pos < |c.input| then |c.input| - c.pos else 0) + (if c.nowReading.NullToken? then 0 else 1)
  }

  /** `readToken`: the lookahead becomes the previous token and the
      scanner's next token becomes the lookahead. */
  function ReadToken(c: Cursor): (r: Cursor)
    ensures r.previouslyRead == c.nowReading
    ensures r.nowReading == TokenAt(c.input, c.pos)
    ensures r.input == c.input && r.pos == c.pos + 1 && r.log == c.log
  {
    c.(pos := c.pos + 1, nowReading := TokenAt(c.input, c.pos), previouslyRead := c.nowReading)
  }

  /** Reading never increases what is left, and strictly decreases it
      unless the lookahead is already the end-of-input token. */
  lemma ReadTokenRemaining(c: Cursor)
    ensures Remaining(ReadToken(c)) <= Remaining(c)
    ensures !c.nowReading.NullToken? ==> Remaining(ReadToken(c)) < Remaining(c)
  {
  }

  /** `syntaxError`: appends one diagnostic; the cursor does not move. */
  function Report(c: Cursor, d: Diagnostic): (r: Cursor)
    ensures r.input == c.input && r.pos == c.pos
    ensures r.nowReading == c.nowReading && r.previouslyRead == c.previouslyRead
    ensures r.log == c.log + [d]
  {
    c.(log := c.log + [d])
  }
}
