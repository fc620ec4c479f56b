/** The recursive-descent parser as pure functions over a cursor value, one
    per production. Each tells what the corresponding `Parser` method
    builds, how far it reads and which diagnostics it records. The grammar:

      program        -> MAIN mainBlock                (then end of input)
      mainBlock      -> { statement* }
      statement      -> declaration | printStatement
      declaration    -> IMMUTABLE identifier := expression ;
      printStatement -> PRINT printExpression* ;
      printExpression-> expression? ,? NEWLINE?
      expression     -> expr1
      expr1          -> expr2 [> expr2]?
      expr2          -> expr3 [+ expr3]*              (left-associative)
      expr3          -> expr4 [* expr4]*              (left-associative)
      expr4          -> literal
      literal        -> number | identifier | TRUE | FALSE
 */
module Grammar {
  import opened Tokens
  import opened Lookahead
  import opened Diagnostics
  import opened ParseTree

  /** The result of one production: its node and the parser state
      afterwards (the diagnostics it reported are appended to the log). */
  datatype Parsed = Parsed(node: Node, after: Cursor)

  /** The children a list-building step appends, with the state afterwards. */
  datatype Items = Items(items: seq<Node>, after: Cursor)

  lemma PrefixTransitive(a: seq<Diagnostic>, b: seq<Diagnostic>, c: seq<Diagnostic>)
    requires a <= b && b <= c
    ensures a <= c
  {
  }

  // ----- Prediction: which tokens start which production -----

  predicate StartsProgram(t: Token) { t.IsLextant([KwMain]) }
  predicate StartsMainBlock(t: Token) { t.IsLextant([OpenBrace]) }
  predicate StartsStatement(t: Token) { StartsPrintStatement(t) || StartsDeclaration(t) }
  predicate StartsPrintStatement(t: Token) { t.IsLextant([KwPrint]) }
  predicate StartsPrintExpression(t: Token) {
    StartsExpression(t) || t.IsLextant([Separator, KwNewline])
  }
  predicate StartsDeclaration(t: Token) { t.IsLextant([KwImmutable]) }
  predicate StartsExpression(t: Token) { StartsExpression1(t) }
  predicate StartsExpression1(t: Token) { StartsExpression2(t) }
  predicate StartsExpression2(t: Token) { StartsLiteral(t) }
  predicate StartsExpression3(t: Token) { StartsExpression4(t) }
  predicate StartsExpression4(t: Token) { StartsLiteral(t) }
  predicate StartsLiteral(t: Token) {
    StartsIntNumber(t) || StartsIdentifier(t) || StartsBooleanConstant(t)
  }
  predicate StartsIntNumber(t: Token) { t.NumberToken? }
  predicate StartsIdentifier(t: Token) { t.IdentifierToken? }
  predicate StartsBooleanConstant(t: Token) { t.IsLextant([KwTrue, KwFalse]) }

  /** No production starts with the end-of-input token. */
  lemma NothingStartsAtEnd(t: Token)
    requires t.NullToken?
    ensures !StartsProgram(t) && !StartsMainBlock(t) && !StartsStatement(t)
    ensures !StartsPrintExpression(t) && !StartsDeclaration(t) && !StartsExpression(t)
  {
  }

  // ----- The recovery helpers -----

  /** `expect`: reads exactly one token whether or not it matches, and
      reports one diagnostic, at the lookahead, exactly when the lookahead
      is not one of the given lextants. */
  function Expect(c: Cursor, lextants: seq<Lextant>): (r: Cursor)
    ensures r.(log := c.log) == ReadToken(c)
    ensures c.nowReading.IsLextant(lextants) ==> r.log == c.log
    ensures !c.nowReading.IsLextant(lextants) ==> r.log == c.log + [Diagnostic(c.nowReading, OneOf(lextants))]
  {
    if c.nowReading.IsLextant(lextants) then ReadToken(c)
    else ReadToken(Report(c, Diagnostic(c.nowReading, OneOf(lextants))))
  }

  /** `syntaxErrorNode`: reports one diagnostic at the lookahead, returns an
      `ErrorNode` anchored there, and reads exactly one token. */
  function SyntaxErrorNode(c: Cursor, expected: string): (r: Parsed)
    ensures r.node == ErrorNode(c.nowReading)
    ensures r.after.(log := c.log) == ReadToken(c)
    ensures r.after.log == c.log + [Diagnostic(c.nowReading, Symbol(expected))]
  {
    Parsed(ErrorNode(c.nowReading), ReadToken(Report(c, Diagnostic(c.nowReading, Symbol(expected)))))
  }

  // ----- Terminals -----
  // Each reads exactly one token and returns a leaf anchored at it; it
  // reports a diagnostic, and returns an `ErrorNode`, exactly when the
  // token is of the wrong kind.

  function ParseIntNumber(c: Cursor): (r: Parsed)
    ensures r.after.(log := c.log) == ReadToken(c) && c.log <= r.after.log
    ensures IsFactor(r.node) && r.node.token == c.nowReading
    ensures StartsIntNumber(c.nowReading) <==> r.node.IntegerConstantNode?
    ensures !StartsIntNumber(c.nowReading) ==> r.node.ErrorNode?
    ensures |r.after.log| == |c.log| + (if r.node.ErrorNode? then 1 else 0)
  {
    if !StartsIntNumber(c.nowReading) then SyntaxErrorNode(c, "integer constant")
    else
      var c1 := ReadToken(c);
      Parsed(IntegerConstantNode(c1.previouslyRead), c1)
  }

  function ParseIdentifier(c: Cursor): (r: Parsed)
    ensures r.after.(log := c.log) == ReadToken(c) && c.log <= r.after.log
    ensures IsIdentifierOrError(r.node) && r.node.token == c.nowReading
    ensures StartsIdentifier(c.nowReading) <==> r.node.IdentifierNode?
    ensures |r.after.log| == |c.log| + (if r.node.ErrorNode? then 1 else 0)
  {
    if !StartsIdentifier(c.nowReading) then SyntaxErrorNode(c, "identifier")
    else
      var c1 := ReadToken(c);
      Parsed(IdentifierNode(c1.previouslyRead), c1)
  }

  function ParseBooleanConstant(c: Cursor): (r: Parsed)
    ensures r.after.(log := c.log) == ReadToken(c) && c.log <= r.after.log
    ensures IsFactor(r.node) && r.node.token == c.nowReading
    ensures StartsBooleanConstant(c.nowReading) <==> r.node.BooleanConstantNode?
    ensures !StartsBooleanConstant(c.nowReading) ==> r.node.ErrorNode?
    ensures |r.after.log| == |c.log| + (if r.node.ErrorNode? then 1 else 0)
  {
    if !StartsBooleanConstant(c.nowReading) then SyntaxErrorNode(c, "boolean constant")
    else
      var c1 := ReadToken(c);
      Parsed(BooleanConstantNode(c1.previouslyRead), c1)
  }

  /** A literal reads exactly one token and yields a factor anchored at it;
      it is an error exactly when that token starts no literal. */
  function ParseLiteral(c: Cursor): (r: Parsed)
    ensures r.after.(log := c.log) == ReadToken(c) && c.log <= r.after.log
    ensures IsFactor(r.node) && r.node.token == c.nowReading
    ensures StartsLiteral(c.nowReading) <==> !r.node.ErrorNode?
    ensures |r.after.log| == |c.log| + (if r.node.ErrorNode? then 1 else 0)
  {
    if !StartsLiteral(c.nowReading) then SyntaxErrorNode(c, "literal")
    else if StartsIntNumber(c.nowReading) then ParseIntNumber(c)
    else if StartsIdentifier(c.nowReading) then ParseIdentifier(c)
    else if StartsBooleanConstant(c.nowReading) then ParseBooleanConstant(c)
    else assert false; SyntaxErrorNode(c, "literal")
  }

  // ----- Expressions -----
  // Every production below reads at least one token, never increases what
  // is left to read, and strictly decreases it unless the lookahead is
  // already end-of-input; it only appends to the log, and when it appends
  // nothing its tree has no `ErrorNode`.

  function ParseExpression4(c: Cursor): (r: Parsed)
    ensures r.after.(log := c.log) == ReadToken(c) && c.log <= r.after.log
    ensures IsFactor(r.node) && r.node.token == c.nowReading
    ensures StartsExpression4(c.nowReading) <==> !r.node.ErrorNode?
    ensures |r.after.log| == |c.log| + (if r.node.ErrorNode? then 1 else 0)
    ensures |r.after.log| == |c.log| ==> Clean(r.node)
  {
    if !StartsExpression4(c.nowReading) then SyntaxErrorNode(c, "expression<4>")
    else ParseLiteral(c)
  }

  /** The `while` loop of expr3: each `*` in the lookahead and the factor
      after it extend the accumulated tree `left` to the left-leaning
      `BinaryOperatorNode(*, left, factor)`. Stops at the first lookahead
      that is not `*`. */
  function MulTail(c: Cursor, left: Node): (r: Parsed)
    ensures r.after.input == c.input && r.after.pos >= c.pos && c.log <= r.after.log
    ensures Remaining(r.after) <= Remaining(c)
    ensures !r.after.nowReading.IsLextant([Multiply])
    ensures IsTerm(left) ==> IsTerm(r.node)
    ensures !left.ErrorNode? ==> !r.node.ErrorNode?
    ensures Clean(left) && |r.after.log| == |c.log| ==> Clean(r.node)
    decreases Remaining(c)
  {
    if c.nowReading.IsLextant([Multiply]) then
      var multiplicativeToken := c.nowReading;
      var right := ParseExpression4(ReadToken(c));
      ReadTokenRemaining(ReadToken(c));
      var rest := MulTail(right.after, BinaryOperatorNode(multiplicativeToken, left, right.node));
      assert |c.log| <= |right.after.log| <= |rest.after.log|;
      PrefixTransitive(c.log, right.after.log, rest.after.log);
      rest
    else
      Parsed(left, c)
  }

  /** expr3: a left-leaning chain of `*` over factors. */
  function ParseExpression3(c: Cursor): (r: Parsed)
    ensures r.after.input == c.input && r.after.pos > c.pos && c.log <= r.after.log
    ensures Remaining(r.after) <= Remaining(c)
    ensures !c.nowReading.NullToken? ==> Remaining(r.after) < Remaining(c)
    ensures IsTerm(r.node)
    ensures StartsExpression3(c.nowReading) <==> !r.node.ErrorNode?
    ensures StartsExpression3(c.nowReading) ==> !r.after.nowReading.IsLextant([Multiply])
    ensures |r.after.log| == |c.log| ==> Clean(r.node)
  {
    if !StartsExpression3(c.nowReading) then SyntaxErrorNode(c, "expression<3>")
    else
      var left := ParseExpression4(c);
      ReadTokenRemaining(c);
      MulTail(left.after, left.node)
  }

  /** The `while` loop of expr2, over `+` and terms, as `MulTail` is over
      `*` and factors. */
  function AddTail(c: Cursor, left: Node): (r: Parsed)
    ensures r.after.input == c.input && r.after.pos >= c.pos && c.log <= r.after.log
    ensures Remaining(r.after) <= Remaining(c)
    ensures !r.after.nowReading.IsLextant([Add])
    ensures IsSum(left) ==> IsSum(r.node)
    ensures !left.ErrorNode? ==> !r.node.ErrorNode?
    ensures Clean(left) && |r.after.log| == |c.log| ==> Clean(r.node)
    decreases Remaining(c)
  {
    if c.nowReading.IsLextant([Add]) then
      var additiveToken := c.nowReading;
      var right := ParseExpression3(ReadToken(c));
      AddTail(right.after, BinaryOperatorNode(additiveToken, left, right.node))
    else
      Parsed(left, c)
  }

  /** expr2: a left-leaning chain of `+` over terms, so `*` binds tighter. */
  function ParseExpression2(c: Cursor): (r: Parsed)
    ensures r.after.input == c.input && r.after.pos > c.pos && c.log <= r.after.log
    ensures Remaining(r.after) <= Remaining(c)
    ensures !c.nowReading.NullToken? ==> Remaining(r.after) < Remaining(c)
    ensures IsSum(r.node)
    ensures StartsExpression2(c.nowReading) <==> !r.node.ErrorNode?
    ensures StartsExpression2(c.nowReading) ==> !r.after.nowReading.IsLextant([Add])
    ensures |r.after.log| == |c.log| ==> Clean(r.node)
  {
    if !StartsExpression2(c.nowReading) then SyntaxErrorNode(c, "expression<2>")
    else
      var left := ParseExpression3(c);
      AddTail(left.after, left.node)
  }

  /** expr1: a sum, or exactly one `>` between two sums; there is no loop,
      so a second `>` is left as the lookahead. */
  function ParseExpression1(c: Cursor): (r: Parsed)
    ensures r.after.input == c.input && r.after.pos > c.pos && c.log <= r.after.log
    ensures Remaining(r.after) <= Remaining(c)
    ensures !c.nowReading.NullToken? ==> Remaining(r.after) < Remaining(c)
    ensures IsComparison(r.node)
    ensures StartsExpression1(c.nowReading) <==> !r.node.ErrorNode?
    ensures |r.after.log| == |c.log| ==> Clean(r.node)
  {
    if !StartsExpression1(c.nowReading) then SyntaxErrorNode(c, "expression<1>")
    else
      var left := ParseExpression2(c);
      if left.after.nowReading.IsLextant([Greater]) then
        var compareToken := left.after.nowReading;
        var right := ParseExpression2(ReadToken(left.after));
        Parsed(BinaryOperatorNode(compareToken, left.node, right.node), right.after)
      else
        left
  }

  function ParseExpression(c: Cursor): (r: Parsed)
    ensures r.after.input == c.input && r.after.pos > c.pos && c.log <= r.after.log
    ensures Remaining(r.after) <= Remaining(c)
    ensures !c.nowReading.NullToken? ==> Remaining(r.after) < Remaining(c)
    ensures IsComparison(r.node)
    ensures StartsExpression(c.nowReading) <==> !r.node.ErrorNode?
    ensures |r.after.log| == |c.log| ==> Clean(r.node)
  {
    if !StartsExpression(c.nowReading) then SyntaxErrorNode(c, "expression")
    else ParseExpression1(c)
  }

  // ----- Statements -----

  /** declaration: the node's children are the identifier (or an error in
      its place) taken from the token right after `immutable`, then the
      initializer expression, in that order. */
  function ParseDeclaration(c: Cursor): (r: Parsed)
    ensures r.after.input == c.input && r.after.pos > c.pos && c.log <= r.after.log
    ensures Remaining(r.after) <= Remaining(c)
    ensures !c.nowReading.NullToken? ==> Remaining(r.after) < Remaining(c)
    ensures IsDeclaration(r.node) || r.node.ErrorNode?
    ensures StartsDeclaration(c.nowReading) <==> IsDeclaration(r.node)
    ensures |r.after.log| == |c.log| ==> Clean(r.node)
  {
    if !StartsDeclaration(c.nowReading) then SyntaxErrorNode(c, "declaration")
    else
      var declarationToken := c.nowReading;
      var identifier := ParseIdentifier(ReadToken(c));
      ReadTokenRemaining(ReadToken(c));
      var initializer := Initializer(identifier.after);
      Parsed(DeclarationNode(declarationToken, identifier.node, initializer.node), initializer.after)
  }

  /** The rest of a declaration after its identifier: `:= expression ;`.
      The `:=` and `;` are only checked by `expect`, which reads them
      whether or not they match. */
  function Initializer(c: Cursor): (r: Parsed)
    ensures r.after.input == c.input && r.after.pos > c.pos + 1 && c.log <= r.after.log
    ensures Remaining(r.after) <= Remaining(c)
    ensures IsComparison(r.node)
    ensures |r.after.log| == |c.log| ==> Clean(r.node)
  {
    var assign := Expect(c, [Assign]);
    ReadTokenRemaining(c);
    var initializer := ParseExpression(assign);
    var terminator := Expect(initializer.after, [Terminator]);
    ReadTokenRemaining(initializer.after);
    PrefixTransitive(c.log, initializer.after.log, terminator.log);
    Parsed(initializer.node, terminator)
  }

  /** The position of a print item within one printExpression: the
      expression, then the separator, then the newline. */
  function ItemRank(n: Node): nat {
    if n.SeparatorNode? then 1 else if n.NewlineNode? then 2 else 0
  }

  /** Items in printExpression order: each kind at most once, in order. */
  predicate InPrintOrder(items: seq<Node>) {
    forall i :: 0 <= i < |items| - 1 ==> ItemRank(items[i]) < ItemRank(items[i + 1])
  }

  /** The optional expression that opens a printExpression, appended to
      the children `parent` already has. */
  function PrintedExpression(c: Cursor, parent: seq<Node>): (r: Items)
    ensures r.after.input == c.input && c.log <= r.after.log
    ensures Remaining(r.after) <= Remaining(c)
    ensures StartsExpression(c.nowReading) ==>
      && |r.items| == |parent| + 1 && r.items == parent + [r.items[|parent|]]
      && r.after.pos > c.pos && Remaining(r.after) < Remaining(c)
    ensures StartsExpression(c.nowReading) ==> IsComparison(r.items[|parent|]) && ItemRank(r.items[|parent|]) == 0
    ensures !StartsExpression(c.nowReading) ==> r == Items(parent, c)
    ensures AllPrintItems(parent) ==> AllPrintItems(r.items)
    ensures AllClean(parent) && |r.after.log| == |c.log| ==> AllClean(r.items)
  {
    if StartsExpression(c.nowReading) then
      var child := ParseExpression(c);
      AppendOne(parent, child.node);
      Items(parent + [child.node], child.after)
    else
      Items(parent, c)
  }

  /** The optional separator: read and appended if it is the lookahead. */
  function PrintedSeparator(p: Items): (r: Items)
    ensures r.after.input == p.after.input && r.after.log == p.after.log
    ensures Remaining(r.after) <= Remaining(p.after)
    ensures p.after.nowReading.IsLextant([Separator]) ==>
      r.items == p.items + [SeparatorNode(p.after.nowReading)] && r.after == ReadToken(p.after) && Remaining(r.after) < Remaining(p.after)
    ensures !p.after.nowReading.IsLextant([Separator]) ==> r == p
    ensures AllPrintItems(p.items) ==> AllPrintItems(r.items)
    ensures AllClean(p.items) ==> AllClean(r.items)
  {
    if p.after.nowReading.IsLextant([Separator]) then
      var c1 := ReadToken(p.after);
      AppendOne(p.items, SeparatorNode(c1.previouslyRead));
      Items(p.items + [SeparatorNode(c1.previouslyRead)], c1)
    else
      p
  }

  /** The optional newline: read and appended if it is the lookahead. */
  function PrintedNewline(p: Items): (r: Items)
    ensures r.after.input == p.after.input && r.after.log == p.after.log
    ensures Remaining(r.after) <= Remaining(p.after)
    ensures p.after.nowReading.IsLextant([KwNewline]) ==>
      r.items == p.items + [NewlineNode(p.after.nowReading)] && r.after == ReadToken(p.after) && Remaining(r.after) < Remaining(p.after)
    ensures !p.after.nowReading.IsLextant([KwNewline]) ==> r == p
    ensures AllPrintItems(p.items) ==> AllPrintItems(r.items)
    ensures AllClean(p.items) ==> AllClean(r.items)
  {
    if p.after.nowReading.IsLextant([KwNewline]) then
      var c1 := ReadToken(p.after);
      AppendOne(p.items, NewlineNode(c1.previouslyRead));
      Items(p.items + [NewlineNode(c1.previouslyRead)], c1)
    else
      p
  }

  /** printExpression -> expression? ,? NEWLINE?, appending to the children
      `parent` already has: it appends something, and reads something,
      exactly when the lookahead starts a printExpression; what it appends
      are print items, without error nodes when it reports nothing. Their
      order is described by `PrintExpressionShape`. */
  function ParsePrintExpression(c: Cursor, parent: seq<Node>): (r: Items)
    ensures r.after.input == c.input && r.after.pos >= c.pos && c.log <= r.after.log
    ensures Remaining(r.after) <= Remaining(c)
    ensures StartsPrintExpression(c.nowReading) ==> Remaining(r.after) < Remaining(c)
    ensures |r.items| > |parent| <==> StartsPrintExpression(c.nowReading)
    ensures |r.items| > |parent| <==> r.after.pos > c.pos
    ensures |r.items| >= |parent|
    ensures AllPrintItems(parent) ==> AllPrintItems(r.items)
    ensures AllClean(parent) && |r.after.log| == |c.log| ==> AllClean(r.items)
  {
    PrintedNewline(PrintedSeparator(PrintedExpression(c, parent)))
  }

  /** The children one printExpression appends after `parent` keep
      `parent` as it was, and are in the order expression, separator,
      newline, each at most once; the first is the expression exactly when
      the lookahead starts one. */
  lemma PrintExpressionShape(c: Cursor, parent: seq<Node>)
    ensures var r := ParsePrintExpression(c, parent);
      && |r.items| >= |parent| && r.items[..|parent|] == parent
      && var added := r.items[|parent|..];
      && InPrintOrder(added)
      && (added != [] ==> (StartsExpression(c.nowReading) <==> ItemRank(added[0]) == 0))
  {
    var ex, sx, nx := PrintExpressionParts(c, parent);
    SplitAppended(parent, ex, sx, nx);
    PrintOrderFromParts(ex, sx, nx);
  }

  /** What one printExpression appends, as its three optional parts. */
  lemma PrintExpressionParts(c: Cursor, parent: seq<Node>) returns (ex: seq<Node>, sx: seq<Node>, nx: seq<Node>)
    ensures ParsePrintExpression(c, parent).items == parent + ex + sx + nx
    ensures |ex| <= 1 && (ex != [] ==> ItemRank(ex[0]) == 0) && (ex != [] <==> StartsExpression(c.nowReading))
    ensures |sx| <= 1 && (sx != [] ==> sx[0].SeparatorNode?)
    ensures |nx| <= 1 && (nx != [] ==> nx[0].NewlineNode?)
  {
    var e := PrintedExpression(c, parent);
    ex := if StartsExpression(c.nowReading) then [e.items[|parent|]] else [];
    var sp := PrintedSeparator(e);
    sx := if e.after.nowReading.IsLextant([Separator]) then [SeparatorNode(e.after.nowReading)] else [];
    var nl := PrintedNewline(sp);
    nx := if sp.after.nowReading.IsLextant([KwNewline]) then [NewlineNode(sp.after.nowReading)] else [];
    assert e.items == parent + ex;
    assert sp.items == e.items + sx;
    assert nl.items == sp.items + nx;
  }

  lemma SplitAppended(parent: seq<Node>, ex: seq<Node>, sx: seq<Node>, nx: seq<Node>)
    ensures var all := parent + ex + sx + nx;
      all[..|parent|] == parent && all[|parent|..] == ex + sx + nx
  {
    var all := parent + ex + sx + nx;
    assert all == parent + (ex + sx + nx);
  }

  lemma PrintOrderFromParts(ex: seq<Node>, sx: seq<Node>, nx: seq<Node>)
    requires |ex| <= 1 && (ex != [] ==> ItemRank(ex[0]) == 0)
    requires |sx| <= 1 && (sx != [] ==> sx[0].SeparatorNode?)
    requires |nx| <= 1 && (nx != [] ==> nx[0].NewlineNode?)
    ensures var items := ex + sx + nx;
      && InPrintOrder(items)
      && (items != [] ==> (ex != [] <==> ItemRank(items[0]) == 0))
  {
    var items := ex + sx + nx;
    forall i | 0 <= i < |items|
      ensures ItemRank(items[i]) == (if i < |ex| then 0 else if i < |ex| + |sx| then 1 else 2)
    {
      if i < |ex| {
        assert items[i] == ex[i];
      } else if i < |ex| + |sx| {
        assert items[i] == sx[i - |ex|];
      } else {
        assert items[i] == nx[i - |ex| - |sx|];
      }
    }
  }

  /** printExpressionList -> printExpression*: the `while` loop appending
      printExpressions to `parent` until the lookahead starts none. The
      children `parent` already has are kept as they were;
      `PrintExpressionListSteps` says what follows them. */
  function PrintExpressionList(c: Cursor, parent: seq<Node>): (r: Items)
    ensures r.after.input == c.input && r.after.pos >= c.pos && c.log <= r.after.log
    ensures Remaining(r.after) <= Remaining(c)
    ensures !StartsPrintExpression(r.after.nowReading)
    ensures parent <= r.items
    ensures AllPrintItems(parent) ==> AllPrintItems(r.items)
    ensures AllClean(parent) && |r.after.log| == |c.log| ==> AllClean(r.items)
    decreases Remaining(c)
  {
    if StartsPrintExpression(c.nowReading) then
      var first := ParsePrintExpression(c, parent);
      PrintExpressionShape(c, parent);
      PrintExpressionList(first.after, first.items)
    else
      Items(parent, c)
  }

  /** What one printExpression appends, and where it stops, do not depend
      on the children already there. */
  lemma PrintExpressionAppends(c: Cursor, parent: seq<Node>)
    ensures var alone := ParsePrintExpression(c, []);
      ParsePrintExpression(c, parent) == Items(parent + alone.items, alone.after)
  {
    var e0 := PrintedExpression(c, []);
    PrintedExpressionAppends(c, parent);
    var sp0 := PrintedSeparator(e0);
    PrintedSeparatorAppends(e0, parent);
    PrintedNewlineAppends(sp0, parent);
  }

  lemma PrintedExpressionAppends(c: Cursor, parent: seq<Node>)
    ensures var alone := PrintedExpression(c, []);
      PrintedExpression(c, parent) == Items(parent + alone.items, alone.after)
  {
    if StartsExpression(c.nowReading) {
      var alone := PrintedExpression(c, []);
      assert alone.items == [] + [alone.items[0]];
    }
  }

  lemma PrintedSeparatorAppends(p: Items, parent: seq<Node>)
    ensures var alone := PrintedSeparator(p);
      PrintedSeparator(Items(parent + p.items, p.after)) == Items(parent + alone.items, alone.after)
  {
    if p.after.nowReading.IsLextant([Separator]) {
      assert (parent + p.items) + [SeparatorNode(p.after.nowReading)] == parent + (p.items + [SeparatorNode(p.after.nowReading)]);
    }
  }

  lemma PrintedNewlineAppends(p: Items, parent: seq<Node>)
    ensures var alone := PrintedNewline(p);
      PrintedNewline(Items(parent + p.items, p.after)) == Items(parent + alone.items, alone.after)
  {
    if p.after.nowReading.IsLextant([KwNewline]) {
      assert (parent + p.items) + [NewlineNode(p.after.nowReading)] == parent + (p.items + [NewlineNode(p.after.nowReading)]);
    }
  }

  /** The children printExpressionList appends after `parent`, and where
      it stops, do not depend on `parent`. */
  lemma {:induction false} PrintExpressionListAppends(c: Cursor, parent: seq<Node>)
    ensures var alone := PrintExpressionList(c, []);
      PrintExpressionList(c, parent) == Items(parent + alone.items, alone.after)
    decreases Remaining(c)
  {
    if StartsPrintExpression(c.nowReading) {
      var first := ParsePrintExpression(c, []);
      var rest := PrintExpressionList(first.after, []);
      PrintExpressionAppends(c, parent);
      PrintExpressionListStep(c, parent);
      PrintExpressionListStep(c, []);
      PrintExpressionListAppends(first.after, parent + first.items);
      PrintExpressionListAppends(first.after, first.items);
      Reassociate(parent, first.items, rest.items);
    }
  }

  lemma Reassociate(a: seq<Node>, b: seq<Node>, c: seq<Node>)
    ensures (a + b) + c == a + (b + c)
  {
  }

  /** One turn of the loop: the first printExpression, then the list from
      where it stopped. */
  lemma PrintExpressionListStep(c: Cursor, parent: seq<Node>)
    requires StartsPrintExpression(c.nowReading)
    ensures var first := ParsePrintExpression(c, parent);
      PrintExpressionList(c, parent) == PrintExpressionList(first.after, first.items)
  {
  }

  /** The children printExpressionList appends after `parent` are the
      successive printExpressions' children, in the order they are parsed:
      the first printExpression's, then those of the list from where it
      stopped. */
  lemma PrintExpressionListSteps(c: Cursor, parent: seq<Node>)
    ensures var alone := PrintExpressionList(c, []);
      PrintExpressionList(c, parent) == Items(parent + alone.items, alone.after)
    ensures StartsPrintExpression(c.nowReading) ==>
      var first := ParsePrintExpression(c, []);
      var rest := PrintExpressionList(first.after, []);
      PrintExpressionList(c, []) == Items(first.items + rest.items, rest.after)
  {
    PrintExpressionListAppends(c, parent);
    if StartsPrintExpression(c.nowReading) {
      var first := ParsePrintExpression(c, []);
      PrintExpressionListStep(c, []);
      PrintExpressionListAppends(first.after, first.items);
    }
  }

  /** printStatement -> PRINT printExpressionList ; */
  function ParsePrintStatement(c: Cursor): (r: Parsed)
    ensures r.after.input == c.input && r.after.pos > c.pos && c.log <= r.after.log
    ensures Remaining(r.after) <= Remaining(c)
    ensures !c.nowReading.NullToken? ==> Remaining(r.after) < Remaining(c)
    ensures IsPrintStatement(r.node) || r.node.ErrorNode?
    ensures StartsPrintStatement(c.nowReading) <==> IsPrintStatement(r.node)
    ensures |r.after.log| == |c.log| ==> Clean(r.node)
  {
    if !StartsPrintStatement(c.nowReading) then SyntaxErrorNode(c, "print statement")
    else
      var printToken := c.nowReading;
      var list := PrintExpressionList(ReadToken(c), []);
      var terminator := Expect(list.after, [Terminator]);
      ReadTokenRemaining(list.after);
      Parsed(PrintStatementNode(printToken, list.items), terminator)
  }

  /** statement -> declaration | printStatement. The dispatch is
      exhaustive: a token that starts a statement starts one of the two. */
  function ParseStatement(c: Cursor): (r: Parsed)
    ensures r.after.input == c.input && r.after.pos > c.pos && c.log <= r.after.log
    ensures Remaining(r.after) <= Remaining(c)
    ensures !c.nowReading.NullToken? ==> Remaining(r.after) < Remaining(c)
    ensures IsStatement(r.node) || r.node.ErrorNode?
    ensures StartsStatement(c.nowReading) <==> IsStatement(r.node)
    ensures |r.after.log| == |c.log| ==> Clean(r.node)
  {
    if !StartsStatement(c.nowReading) then SyntaxErrorNode(c, "statement")
    else if StartsDeclaration(c.nowReading) then ParseDeclaration(c)
    else if StartsPrintStatement(c.nowReading) then ParsePrintStatement(c)
    else assert false; SyntaxErrorNode(c, "statement")
  }

  /** The `while` loop of mainBlock: statements appended to `done` until
      the lookahead starts none. Every statement it appends is a
      declaration or a print statement, never an error node, since each
      starts a statement. */
  function StatementList(c: Cursor, done: seq<Node>): (r: Items)
    ensures r.after.input == c.input && r.after.pos >= c.pos && c.log <= r.after.log
    ensures Remaining(r.after) <= Remaining(c)
    ensures !StartsStatement(r.after.nowReading)
    ensures done <= r.items
    ensures AllStatements(done) ==> AllStatements(r.items)
    ensures AllClean(done) && |r.after.log| == |c.log| ==> AllClean(r.items)
    decreases Remaining(c)
  {
    if StartsStatement(c.nowReading) then
      var statement := ParseStatement(c);
      AppendOne(done, statement.node);
      StatementList(statement.after, done + [statement.node])
    else
      Items(done, c)
  }

  /** mainBlock -> { statement* } */
  function ParseMainBlock(c: Cursor): (r: Parsed)
    ensures r.after.input == c.input && r.after.pos > c.pos && c.log <= r.after.log
    ensures Remaining(r.after) <= Remaining(c)
    ensures !c.nowReading.NullToken? ==> Remaining(r.after) < Remaining(c)
    ensures IsMainBlock(r.node) || r.node.ErrorNode?
    ensures StartsMainBlock(c.nowReading) <==> IsMainBlock(r.node)
    ensures |r.after.log| == |c.log| ==> Clean(r.node)
  {
    if !StartsMainBlock(c.nowReading) then SyntaxErrorNode(c, "mainBlock")
    else
      var blockToken := c.nowReading;
      var open := Expect(c, [OpenBrace]);
      ReadTokenRemaining(c);
      var statements := StatementList(open, []);
      var close := Expect(statements.after, [CloseBrace]);
      ReadTokenRemaining(statements.after);
      Parsed(MainBlockNode(blockToken, statements.items), close)
  }

  /** program -> MAIN mainBlock, which must be followed by end of input;
      otherwise the result is an error node in place of the program,
      anchored at the token after the main block, which is read. A program
      node is returned only at end of input. */
  function ParseProgram(c: Cursor): (r: Parsed)
    ensures r.after.input == c.input && r.after.pos > c.pos && c.log <= r.after.log
    ensures Remaining(r.after) <= Remaining(c)
    ensures !c.nowReading.NullToken? ==> Remaining(r.after) < Remaining(c)
    ensures IsProgram(r.node) || r.node.ErrorNode?
    ensures r.node.ProgramNode? ==> StartsProgram(c.nowReading) && r.after.nowReading.NullToken?
    ensures |r.after.log| == |c.log| ==> Clean(r.node)
  {
    if !StartsProgram(c.nowReading) then SyntaxErrorNode(c, "program")
    else
      var programToken := c.nowReading;
      var main := Expect(c, [KwMain]);
      ReadTokenRemaining(c);
      var mainBlock := ParseMainBlock(main);
      if !mainBlock.after.nowReading.NullToken? then
        ReadTokenRemaining(mainBlock.after);
        SyntaxErrorNode(mainBlock.after, "end of program")
      else
        Parsed(ProgramNode(programToken, mainBlock.node), mainBlock.after)
  }

  /** `parse()`: read the first token, then parse a program. */
  function ParseFrom(c: Cursor): (r: Parsed)
    ensures r.after.input == c.input && r.after.pos > c.pos + 1 && c.log <= r.after.log
    ensures IsProgram(r.node) || r.node.ErrorNode?
    ensures r.node.ProgramNode? ==> r.after.nowReading.NullToken?
    ensures |r.after.log| == |c.log| ==> Clean(r.node)
  {
    ParseProgram(ReadToken(c))
  }

  /** Parsing a whole token sequence: always completes, with a program node
      or an error node at the root; a tree with an error node anywhere in it
      always comes with at least one diagnostic. */
  function Parse(input: seq<Token>): (r: Parsed)
    ensures IsProgram(r.node) || r.node.ErrorNode?
    ensures r.node.ProgramNode? ==> r.after.nowReading.NullToken?
    ensures r.after.log == [] ==> Clean(r.node)
  {
    ParseFrom(Initial(input))
  }
}
