/** What the statement and program productions promise: a production whose
    guard fails is one error node for one token and one diagnostic; the
    dispatches are exhaustive; a declaration's children are its
    identifier and its initializer, from the tokens right after
    `immutable`; input left after the main block replaces the program by
    an error node. */
module StatementProperties {
  import opened Tokens
  import opened Scanning
  import opened Diagnostics
  import opened Lookahead
  import opened ParseTree
  import opened Grammar
  import opened ExpressionProperties

  /** The parse reported one diagnostic, `Symbol(expected)` at the
      lookahead, built an error node anchored there and read exactly that
      token. */
  predicate RejectedOne(c: Cursor, r: Parsed, expected: string) {
    && r.node == ErrorNode(c.nowReading)
    && r.after.input == c.input && r.after.pos == c.pos + 1
    && r.after.previouslyRead == c.nowReading
    && r.after.log == c.log + [Diagnostic(c.nowReading, Symbol(expected))]
  }

  /** `syntaxErrorNode` on its own. */
  lemma SyntaxErrorNodeRejectsOne(c: Cursor, expected: string)
    ensures RejectedOne(c, SyntaxErrorNode(c, expected), expected)
  {
  }

  /** The statement-level productions: a failed guard yields one error node
      for one token and one diagnostic naming the production. */
  lemma StatementGuards(c: Cursor)
    ensures !StartsProgram(c.nowReading) ==> RejectedOne(c, ParseProgram(c), "program")
    ensures !StartsMainBlock(c.nowReading) ==> RejectedOne(c, ParseMainBlock(c), "mainBlock")
    ensures !StartsStatement(c.nowReading) ==> RejectedOne(c, ParseStatement(c), "statement")
    ensures !StartsPrintStatement(c.nowReading) ==> RejectedOne(c, ParsePrintStatement(c), "print statement")
    ensures !StartsDeclaration(c.nowReading) ==> RejectedOne(c, ParseDeclaration(c), "declaration")
  {
  }

  /** The same for the expression productions, the literal and the three
      terminal parsers. */
  lemma ExpressionGuards(c: Cursor)
    ensures !StartsExpression(c.nowReading) ==> RejectedOne(c, ParseExpression(c), "expression")
    ensures !StartsExpression1(c.nowReading) ==> RejectedOne(c, ParseExpression1(c), "expression<1>")
    ensures !StartsExpression2(c.nowReading) ==> RejectedOne(c, ParseExpression2(c), "expression<2>")
    ensures !StartsExpression3(c.nowReading) ==> RejectedOne(c, ParseExpression3(c), "expression<3>")
    ensures !StartsExpression4(c.nowReading) ==> RejectedOne(c, ParseExpression4(c), "expression<4>")
    ensures !StartsLiteral(c.nowReading) ==> RejectedOne(c, ParseLiteral(c), "literal")
    ensures !StartsIntNumber(c.nowReading) ==> RejectedOne(c, ParseIntNumber(c), "integer constant")
    ensures !StartsIdentifier(c.nowReading) ==> RejectedOne(c, ParseIdentifier(c), "identifier")
    ensures !StartsBooleanConstant(c.nowReading) ==> RejectedOne(c, ParseBooleanConstant(c), "boolean constant")
  {
  }

  /** Dispatch of statements. The first clause only unfolds
      `StartsStatement`; that the dispatch is exhaustive is the `assert
      false` in the last branch of `Grammar.ParseStatement` and of
      `Parsing.Parser.ParseStatement`. The second clause: no token starts
      both a declaration and a print statement. */
  lemma StatementDispatch(t: Token)
    ensures StartsStatement(t) <==> StartsDeclaration(t) || StartsPrintStatement(t)
    ensures !(StartsDeclaration(t) && StartsPrintStatement(t))
  {
  }

  /** Dispatch of literals. The first clause only unfolds
      `StartsLiteral`; that the dispatch is exhaustive is the `assert false`
      in the last branch of `Grammar.ParseLiteral` and of
      `Parsing.Parser.ParseLiteral`. The other clauses: no token is two of
      a number, an identifier and a boolean constant. */
  lemma LiteralDispatch(t: Token)
    ensures StartsLiteral(t) <==> StartsIntNumber(t) || StartsIdentifier(t) || StartsBooleanConstant(t)
    ensures !(StartsIntNumber(t) && StartsIdentifier(t)) && !(StartsIntNumber(t) && StartsBooleanConstant(t))
    ensures !(StartsIdentifier(t) && StartsBooleanConstant(t))
  {
  }

  /** A declaration from a synchronised state: the anchor is `immutable`,
      the first child is built from the token right after it (an
      identifier node exactly when that token is an identifier), and the
      second child spells the tokens from the one after the `:=` slot on.
      The declaration reads `immutable`, the identifier slot, the `:=`
      slot, the initializer's tokens and the `;` slot; when nothing is
      reported the two slots did hold `:=` and `;`. */
  lemma DeclarationChildren(c: Cursor)
    requires Synced(c) && StartsDeclaration(c.nowReading)
    ensures var r := ParseDeclaration(c);
      && r.node.DeclarationNode? && r.node.token == c.nowReading
      && r.node.identifier.token == TokenAt(c.input, c.pos)
      && (r.node.identifier.IdentifierNode? <==> TokenAt(c.input, c.pos).IdentifierToken?)
      && SpellsFrom(r.node.initializer, c.input, c.pos + 2)
      && r.after.pos == c.pos + Size(r.node.initializer) + 4
      && (|r.after.log| == |c.log| ==>
            && TokenAt(c.input, c.pos + 1) == LextantToken(Assign)
            && TokenAt(c.input, c.pos + 2 + Size(r.node.initializer)) == LextantToken(Terminator))
  {
    var identifier := ParseIdentifier(ReadToken(c));
    var assign := Expect(identifier.after, [Assign]);
    InitializerSpells(identifier.after);
  }

  /** The initializer after an identifier read from a synchronised state:
      the `:=` slot, an expression spelling what it consumed, the `;`
      slot. */
  lemma InitializerSpells(c: Cursor)
    requires Synced(c)
    ensures var r := Initializer(c);
      && SpellsFrom(r.node, c.input, c.pos)
      && r.after.pos == c.pos + Size(r.node) + 2
      && (|r.after.log| == |c.log| ==>
            && c.nowReading == LextantToken(Assign)
            && TokenAt(c.input, c.pos + Size(r.node)) == LextantToken(Terminator))
  {
    var assign := Expect(c, [Assign]);
    ExpressionSpells(assign);
    var e := ParseExpression(assign);
    var terminator := Expect(e.after, [Terminator]);
    assert |c.log| <= |assign.log| <= |e.after.log| <= |terminator.log|;
  }

  /** program: when the main block is not followed by end of input, the
      result is an error node anchored at the token that follows it, that
      token is read and one more diagnostic is reported; otherwise the
      result is the program node over the main block. */
  lemma TrailingInput(c: Cursor)
    requires StartsProgram(c.nowReading)
    ensures var block := ParseMainBlock(Expect(c, [KwMain]));
      var r := ParseProgram(c);
      && (!block.after.nowReading.NullToken? ==> RejectedOne(block.after, r, "end of program"))
      && (block.after.nowReading.NullToken? ==>
            r.node == ProgramNode(c.nowReading, block.node) && r.after.pos == block.after.pos && r.after.log == block.after.log)
  {
  }
}
