/** Worked parses of small token sequences, for any identifier names and
    any number: what the grammar does on `a + b * c`, on `a * b * c`, on
    `a > b > c`, on `print m , n ;`, on `main { }`, on a declaration and
    on a declaration missing its `:=`. The
    step lemmas at the top each unfold one production once. */
module Examples {
  import opened Tokens
  import opened Scanning
  import opened Diagnostics
  import opened Lookahead
  import opened ParseTree
  import opened Grammar
  import opened StatementProperties

  const Plus := LextantToken(Add)
  const Times := LextantToken(Multiply)
  const MoreThan := LextantToken(Greater)
  const Main := LextantToken(KwMain)
  const Open := LextantToken(OpenBrace)
  const Close := LextantToken(CloseBrace)
  const Immutable := LextantToken(KwImmutable)
  const Semicolon := LextantToken(Terminator)
  const Becomes := LextantToken(Assign)
  const PrintWord := LextantToken(KwPrint)
  const Comma := LextantToken(Separator)

  function Id(name: string): Token {
    IdentifierToken(name)
  }

  function Leaf(name: string): Node {
    IdentifierNode(Id(name))
  }

  // ----- One step of each production -----

  lemma Factor(c: Cursor)
    requires c.nowReading.IdentifierToken?
    ensures ParseExpression4(c) == Parsed(IdentifierNode(c.nowReading), ReadToken(c))
  {
  }

  lemma Number(c: Cursor)
    requires c.nowReading.NumberToken?
    ensures ParseExpression4(c) == Parsed(IntegerConstantNode(c.nowReading), ReadToken(c))
  {
  }

  lemma MulStops(c: Cursor, left: Node)
    requires !c.nowReading.IsLextant([Multiply])
    ensures MulTail(c, left) == Parsed(left, c)
  {
  }

  lemma MulStep(c: Cursor, left: Node)
    requires c.nowReading == Times
    ensures var right := ParseExpression4(ReadToken(c));
      MulTail(c, left) == MulTail(right.after, BinaryOperatorNode(Times, left, right.node))
  {
  }

  lemma AddStops(c: Cursor, left: Node)
    requires !c.nowReading.IsLextant([Add])
    ensures AddTail(c, left) == Parsed(left, c)
  {
  }

  lemma AddStep(c: Cursor, left: Node)
    requires c.nowReading == Plus
    ensures var right := ParseExpression3(ReadToken(c));
      AddTail(c, left) == AddTail(right.after, BinaryOperatorNode(Plus, left, right.node))
  {
  }

  lemma Term(c: Cursor)
    requires StartsLiteral(c.nowReading)
    ensures var f := ParseExpression4(c); ParseExpression3(c) == MulTail(f.after, f.node)
  {
  }

  lemma Sum(c: Cursor)
    requires StartsLiteral(c.nowReading)
    ensures var t := ParseExpression3(c); ParseExpression2(c) == AddTail(t.after, t.node)
  {
  }

  lemma Comparison(c: Cursor)
    requires StartsLiteral(c.nowReading)
    requires !ParseExpression2(c).after.nowReading.IsLextant([Greater])
    ensures ParseExpression(c) == ParseExpression2(c)
  {
  }

  lemma OneGreater(c: Cursor)
    requires c.nowReading.IdentifierToken?
    requires ParseExpression2(c).after.nowReading == MoreThan
    ensures var left := ParseExpression2(c);
      var right := ParseExpression2(ReadToken(left.after));
      ParseExpression(c) == Parsed(BinaryOperatorNode(MoreThan, left.node, right.node), right.after)
  {
  }

  lemma ProgramStep(c: Cursor)
    requires c.nowReading == Main
    requires ParseMainBlock(ReadToken(c)).after.nowReading.NullToken?
    ensures var block := ParseMainBlock(ReadToken(c));
      ParseProgram(c) == Parsed(ProgramNode(Main, block.node), block.after)
  {
  }

  lemma BlockStep(c: Cursor)
    requires c.nowReading == Open
    ensures var list := StatementList(ReadToken(c), []);
      ParseMainBlock(c) == Parsed(MainBlockNode(Open, list.items), Expect(list.after, [CloseBrace]))
  {
  }

  lemma ListStops(c: Cursor, done: seq<Node>)
    requires !StartsStatement(c.nowReading)
    ensures StatementList(c, done) == Items(done, c)
  {
  }

  lemma ListStep(c: Cursor, done: seq<Node>)
    requires StartsStatement(c.nowReading)
    ensures var s := ParseStatement(c);
      StatementList(c, done) == StatementList(s.after, done + [s.node])
  {
  }

  lemma DeclarationStep(c: Cursor)
    requires c.nowReading == Immutable
    ensures var id := ParseIdentifier(ReadToken(c));
      var init := Initializer(id.after);
      ParseStatement(c) == Parsed(DeclarationNode(Immutable, id.node, init.node), init.after)
  {
  }

  lemma NoExpression(c: Cursor)
    requires !StartsExpression(c.nowReading)
    ensures RejectedOne(c, ParseExpression(c), "expression")
  {
  }

  lemma InitializerStep(c: Cursor)
    ensures var e := ParseExpression(Expect(c, [Assign]));
      Initializer(c) == Parsed(e.node, Expect(e.after, [Terminator]))
  {
  }

  /** A number followed by no operator is an integer constant on its own. */
  lemma Constant(c: Cursor)
    requires c.nowReading.NumberToken?
    requires !ReadToken(c).nowReading.IsLextant([Multiply])
    requires !ReadToken(c).nowReading.IsLextant([Add])
    requires !ReadToken(c).nowReading.IsLextant([Greater])
    ensures ParseExpression(c) == Parsed(IntegerConstantNode(c.nowReading), ReadToken(c))
  {
    var leaf := IntegerConstantNode(c.nowReading);
    Number(c);
    MulStops(ReadToken(c), leaf);
    Term(c);
    AddStops(ReadToken(c), leaf);
    Sum(c);
    Comparison(c);
  }

  lemma PrintStep(c: Cursor)
    requires c.nowReading == PrintWord
    ensures var list := PrintExpressionList(ReadToken(c), []);
      ParseStatement(c) == Parsed(PrintStatementNode(PrintWord, list.items), Expect(list.after, [Terminator]))
  {
  }

  lemma PrintListStops(c: Cursor, parent: seq<Node>)
    requires !StartsPrintExpression(c.nowReading)
    ensures PrintExpressionList(c, parent) == Items(parent, c)
  {
  }

  // ----- Expressions -----

  /** `a + b * c` is `a + (b * c)`: `*` binds tighter than `+`. */
  lemma Precedence(a: string, b: string, c: string)
    ensures var r := ParseExpression(ReadToken(Initial([Id(a), Plus, Id(b), Times, Id(c)])));
      && r.node == BinaryOperatorNode(Plus, Leaf(a), BinaryOperatorNode(Times, Leaf(b), Leaf(c)))
      && r.after.log == [] && r.after.nowReading == NullToken
  {
    var input := [Id(a), Plus, Id(b), Times, Id(c)];
    var c1 := After(input, 1);
    assert ReadToken(Initial(input)) == c1;
    Factor(c1);
    var c2 := After(input, 2);
    assert ReadToken(c1) == c2;
    MulStops(c2, Leaf(a));
    Term(c1);
    Sum(c1);
    AddStep(c2, Leaf(a));
    var c3 := After(input, 3);
    assert ReadToken(c2) == c3;
    Factor(c3);
    var c4 := After(input, 4);
    assert ReadToken(c3) == c4;
    Term(c3);
    MulStep(c4, Leaf(b));
    var c5 := After(input, 5);
    assert ReadToken(c4) == c5;
    Factor(c5);
    var c6 := ReadToken(c5);
    MulStops(c6, BinaryOperatorNode(Times, Leaf(b), Leaf(c)));
    AddStops(c6, BinaryOperatorNode(Plus, Leaf(a), BinaryOperatorNode(Times, Leaf(b), Leaf(c))));
    Comparison(c1);
  }

  /** `a * b * c` is `(a * b) * c`: the operators associate to the left. */
  lemma LeftAssociative(a: string, b: string, c: string)
    ensures var r := ParseExpression(ReadToken(Initial([Id(a), Times, Id(b), Times, Id(c)])));
      && r.node == BinaryOperatorNode(Times, BinaryOperatorNode(Times, Leaf(a), Leaf(b)), Leaf(c))
      && r.after.log == [] && r.after.nowReading == NullToken
  {
    var input := [Id(a), Times, Id(b), Times, Id(c)];
    var c1 := After(input, 1);
    assert ReadToken(Initial(input)) == c1;
    Factor(c1);
    var c2 := After(input, 2);
    assert ReadToken(c1) == c2;
    Term(c1);
    MulStep(c2, Leaf(a));
    var c3 := After(input, 3);
    assert ReadToken(c2) == c3;
    Factor(c3);
    var c4 := After(input, 4);
    assert ReadToken(c3) == c4;
    MulStep(c4, BinaryOperatorNode(Times, Leaf(a), Leaf(b)));
    var c5 := After(input, 5);
    assert ReadToken(c4) == c5;
    Factor(c5);
    var c6 := ReadToken(c5);
    var n := BinaryOperatorNode(Times, BinaryOperatorNode(Times, Leaf(a), Leaf(b)), Leaf(c));
    MulStops(c6, n);
    Sum(c1);
    AddStops(c6, n);
    Comparison(c1);
  }

  /** `a > b > c`: the expression is `a > b`, nothing is reported, and the
      second `>` is left as the lookahead for the caller to trip on. */
  lemma ChainedComparison(a: string, b: string, c: string)
    ensures var r := ParseExpression(ReadToken(Initial([Id(a), MoreThan, Id(b), MoreThan, Id(c)])));
      && r.node == BinaryOperatorNode(MoreThan, Leaf(a), Leaf(b))
      && r.after.log == [] && r.after.nowReading == MoreThan && r.after.pos == 4
  {
    var input := [Id(a), MoreThan, Id(b), MoreThan, Id(c)];
    var c1 := After(input, 1);
    assert ReadToken(Initial(input)) == c1;
    Factor(c1);
    var c2 := After(input, 2);
    assert ReadToken(c1) == c2;
    Term(c1);
    MulStops(c2, Leaf(a));
    Sum(c1);
    AddStops(c2, Leaf(a));
    var c3 := After(input, 3);
    assert ReadToken(c2) == c3;
    Factor(c3);
    var c4 := After(input, 4);
    assert ReadToken(c3) == c4;
    Term(c3);
    MulStops(c4, Leaf(b));
    Sum(c3);
    AddStops(c4, Leaf(b));
    OneGreater(c1);
  }

  // ----- Print statements -----

  function PrintInput(m: int, n: int): seq<Token> {
    [PrintWord, NumberToken(m), Comma, NumberToken(n), Semicolon]
  }

  /** The first printExpression of `print m , n ;`: the constant `m` and
      the separator. */
  lemma PrintFirst(m: int, n: int)
    ensures ParsePrintExpression(After(PrintInput(m, n), 2), [])
      == Items([IntegerConstantNode(NumberToken(m)), SeparatorNode(Comma)], After(PrintInput(m, n), 4))
  {
    var input := PrintInput(m, n);
    var c2 := After(input, 2);
    var c3 := After(input, 3);
    assert ReadToken(c2) == c3;
    Constant(c2);
    var e := PrintedExpression(c2, []);
    assert e == Items([IntegerConstantNode(NumberToken(m))], c3);
    assert ReadToken(c3) == After(input, 4);
    var sp := PrintedSeparator(e);
    assert sp == Items([IntegerConstantNode(NumberToken(m)), SeparatorNode(Comma)], After(input, 4));
    assert PrintedNewline(sp) == sp;
  }

  /** The second printExpression of `print m , n ;`: the constant `n`,
      appended after the first one's children, with the `;` left as the
      lookahead. */
  lemma PrintSecond(m: int, n: int)
    ensures var first := [IntegerConstantNode(NumberToken(m)), SeparatorNode(Comma)];
      ParsePrintExpression(After(PrintInput(m, n), 4), first)
      == Items(first + [IntegerConstantNode(NumberToken(n))], After(PrintInput(m, n), 5))
  {
    var input := PrintInput(m, n);
    var first := [IntegerConstantNode(NumberToken(m)), SeparatorNode(Comma)];
    var c4 := After(input, 4);
    var c5 := After(input, 5);
    assert ReadToken(c4) == c5;
    Constant(c4);
    var e := PrintedExpression(c4, first);
    assert e == Items(first + [IntegerConstantNode(NumberToken(n))], c5);
    assert PrintedSeparator(e) == e;
    assert PrintedNewline(e) == e;
  }

  /** The list from the second printExpression of `print m , n ;` on:
      it appends the constant `n` and stops at the `;`. */
  lemma PrintListRest(m: int, n: int)
    ensures PrintExpressionList(After(PrintInput(m, n), 4), [IntegerConstantNode(NumberToken(m)), SeparatorNode(Comma)])
      == Items([IntegerConstantNode(NumberToken(m)), SeparatorNode(Comma), IntegerConstantNode(NumberToken(n))], After(PrintInput(m, n), 5))
  {
    var input := PrintInput(m, n);
    var first := [IntegerConstantNode(NumberToken(m)), SeparatorNode(Comma)];
    var all := first + [IntegerConstantNode(NumberToken(n))];
    assert all == [IntegerConstantNode(NumberToken(m)), SeparatorNode(Comma), IntegerConstantNode(NumberToken(n))];
    PrintExpressionListStep(After(input, 4), first);
    PrintSecond(m, n);
    var c5 := After(input, 5);
    assert c5.nowReading == Semicolon;
    PrintListStops(c5, all);
  }

  /** The printExpressions of `print m , n ;`: the two above, one after
      the other, stopping at the `;`. */
  lemma PrintList(m: int, n: int)
    ensures PrintExpressionList(After(PrintInput(m, n), 2), [])
      == Items([IntegerConstantNode(NumberToken(m)), SeparatorNode(Comma), IntegerConstantNode(NumberToken(n))], After(PrintInput(m, n), 5))
  {
    PrintExpressionListStep(After(PrintInput(m, n), 2), []);
    PrintFirst(m, n);
    PrintListRest(m, n);
  }

  /** `print m , n ;` is a print statement whose children are the integer
      constant `m`, the separator and the integer constant `n`, in that
      order; nothing is reported. */
  lemma PrintSequence(m: int, n: int)
    ensures var s := ParseStatement(After(PrintInput(m, n), 1));
      && s.node == PrintStatementNode(PrintWord, [IntegerConstantNode(NumberToken(m)), SeparatorNode(Comma), IntegerConstantNode(NumberToken(n))])
      && s.after.log == [] && s.after.nowReading == NullToken
  {
    var input := PrintInput(m, n);
    var c1 := After(input, 1);
    assert ReadToken(c1) == After(input, 2);
    PrintStep(c1);
    PrintList(m, n);
    var c5 := After(input, 5);
    assert Expect(c5, [Terminator]) == ReadToken(c5);
  }

  // ----- Whole programs -----

  /** `main { }` is a program with an empty main block, and nothing is
      reported. */
  lemma EmptyProgram()
    ensures var r := Parse([Main, Open, Close]);
      r.node == ProgramNode(Main, MainBlockNode(Open, [])) && r.after.log == []
  {
    var c1 := ReadToken(Initial([Main, Open, Close]));
    var c2 := ReadToken(c1);
    var c3 := ReadToken(c2);
    ListStops(c3, []);
    BlockStep(c2);
    ProgramStep(c1);
  }

  function MissingAssignInput(x: string, n: int): seq<Token> {
    [Main, Open, Immutable, Id(x), NumberToken(n), Semicolon, Close]
  }

  /** What `main { immutable x n ; }` reports, in order. */
  function MissingAssignDiagnostics(n: int): seq<Diagnostic> {
    [ Diagnostic(NumberToken(n), OneOf([Assign])),
      Diagnostic(Semicolon, Symbol("expression")),
      Diagnostic(Close, OneOf([Terminator])),
      Diagnostic(NullToken, OneOf([CloseBrace])) ]
  }

  /** The parser over `input` after reading its first `k` tokens, with
      nothing reported. */
  function After(input: seq<Token>, k: nat): (c: Cursor)
    requires 1 <= k <= |input|
    ensures c.input == input && c.pos == k && c.log == []
    ensures c.nowReading == input[k - 1]
  {
    Cursor(input, k, input[k - 1], if k == 1 then NullToken else input[k - 2], [])
  }

  /** The initializer in `main { immutable x n ; }`, from the `:=` slot
      on: the missing `:=` is reported where `n` stands and `n` is read as
      if it were the `:=`; the expression then starts at `;`, which is
      reported and read; the `;` is looked for at `}`, reported and read. */
  lemma MissingAssignInitializer(x: string, n: int)
    ensures var i := Initializer(After(MissingAssignInput(x, n), 5));
      && i.node == ErrorNode(Semicolon)
      && i.after.nowReading == NullToken && i.after.pos == 8
      && i.after.log == MissingAssignDiagnostics(n)[..3]
  {
    var c5 := After(MissingAssignInput(x, n), 5);
    var assign := Expect(c5, [Assign]);
    assert assign.nowReading == Semicolon && assign.pos == 6 && assign.log == [Diagnostic(NumberToken(n), OneOf([Assign]))];
    NoExpression(assign);
    var e := ParseExpression(assign);
    var terminator := Expect(e.after, [Terminator]);
    assert terminator.nowReading == NullToken && terminator.pos == 8;
    assert terminator.log == assign.log + [Diagnostic(Semicolon, Symbol("expression")), Diagnostic(Close, OneOf([Terminator]))];
    InitializerStep(c5);
  }

  /** The declaration in `main { immutable x n ; }`: the identifier is
      read, and the initializer is as above. */
  lemma MissingAssignDeclaration(x: string, n: int)
    ensures var d := ParseStatement(After(MissingAssignInput(x, n), 3));
      && d.node == DeclarationNode(Immutable, Leaf(x), ErrorNode(Semicolon))
      && d.after.nowReading == NullToken && d.after.pos == 8
      && d.after.log == MissingAssignDiagnostics(n)[..3]
  {
    var c3 := After(MissingAssignInput(x, n), 3);
    assert ReadToken(c3) == After(MissingAssignInput(x, n), 4);
    var id := ParseIdentifier(ReadToken(c3));
    assert id == Parsed(Leaf(x), After(MissingAssignInput(x, n), 5));
    MissingAssignInitializer(x, n);
    DeclarationStep(c3);
  }

  /** The statements of `main { immutable x n ; }`: the declaration, after
      which the lookahead is end of input. */
  lemma MissingAssignStatements(x: string, n: int)
    ensures var l := StatementList(After(MissingAssignInput(x, n), 3), []);
      && l.items == [DeclarationNode(Immutable, Leaf(x), ErrorNode(Semicolon))]
      && l.after.nowReading == NullToken && l.after.pos == 8
      && l.after.log == MissingAssignDiagnostics(n)[..3]
  {
    var c3 := After(MissingAssignInput(x, n), 3);
    MissingAssignDeclaration(x, n);
    var d := ParseStatement(c3);
    ListStep(c3, []);
    ListStops(d.after, [d.node]);
  }

  /** The main block of `main { immutable x n ; }`: its `}` is looked for
      at end of input and reported there. */
  lemma MissingAssignBlock(x: string, n: int)
    ensures var b := ParseMainBlock(After(MissingAssignInput(x, n), 2));
      && b.node == MainBlockNode(Open, [DeclarationNode(Immutable, Leaf(x), ErrorNode(Semicolon))])
      && b.after.nowReading == NullToken
      && b.after.log == MissingAssignDiagnostics(n)
  {
    var c2 := After(MissingAssignInput(x, n), 2);
    assert ReadToken(c2) == After(MissingAssignInput(x, n), 3);
    BlockStep(c2);
    MissingAssignStatements(x, n);
    var l := StatementList(After(MissingAssignInput(x, n), 3), []);
    var close := Expect(l.after, [CloseBrace]);
    assert close.nowReading == NullToken && close.log == l.after.log + [Diagnostic(NullToken, OneOf([CloseBrace]))];
  }

  /** `main { immutable x n ; }`: one missing token gives four
      diagnostics, and the program node is still returned. */
  lemma MissingAssign(x: string, n: int)
    ensures var r := Parse(MissingAssignInput(x, n));
      && r.node == ProgramNode(Main, MainBlockNode(Open, [DeclarationNode(Immutable, Leaf(x), ErrorNode(Semicolon))]))
      && r.after.log == MissingAssignDiagnostics(n)
  {
    var c1 := ReadToken(Initial(MissingAssignInput(x, n)));
    assert c1 == After(MissingAssignInput(x, n), 1);
    assert ReadToken(c1) == After(MissingAssignInput(x, n), 2);
    MissingAssignBlock(x, n);
    ProgramStep(c1);
  }

  function DeclarationInput(x: string, n: int): seq<Token> {
    [Main, Open, Immutable, Id(x), Becomes, NumberToken(n), Semicolon, Close]
  }

  /** The initializer of `main { immutable x := n ; }`: the `:=`, the
      integer constant `n` and the `;`. */
  lemma DeclarationInitializer(x: string, n: int)
    ensures var i := Initializer(After(DeclarationInput(x, n), 5));
      && i.node == IntegerConstantNode(NumberToken(n))
      && i.after.nowReading == Close && i.after.pos == 8 && i.after.log == []
  {
    var c5 := After(DeclarationInput(x, n), 5);
    var c6 := ReadToken(c5);
    assert Expect(c5, [Assign]) == c6 == After(DeclarationInput(x, n), 6);
    Number(c6);
    var c7 := ReadToken(c6);
    var leaf := IntegerConstantNode(NumberToken(n));
    MulStops(c7, leaf);
    Term(c6);
    AddStops(c7, leaf);
    Sum(c6);
    Comparison(c6);
    assert Expect(c7, [Terminator]) == ReadToken(c7);
    InitializerStep(c5);
  }

  /** The declaration of `main { immutable x := n ; }`: its children are
      the identifier `x` and the integer constant `n`, in that order. */
  lemma DeclarationChildrenInOrder(x: string, n: int)
    ensures var d := ParseStatement(After(DeclarationInput(x, n), 3));
      && d.node == DeclarationNode(Immutable, Leaf(x), IntegerConstantNode(NumberToken(n)))
      && d.after.nowReading == Close && d.after.pos == 8 && d.after.log == []
  {
    var c3 := After(DeclarationInput(x, n), 3);
    assert ReadToken(c3) == After(DeclarationInput(x, n), 4);
    var id := ParseIdentifier(ReadToken(c3));
    assert id == Parsed(Leaf(x), After(DeclarationInput(x, n), 5));
    DeclarationInitializer(x, n);
    DeclarationStep(c3);
  }

  /** The statements of `main { immutable x := n ; }`: the declaration,
      after which the lookahead is the `}`. */
  lemma DeclarationStatements(x: string, n: int)
    ensures var l := StatementList(After(DeclarationInput(x, n), 3), []);
      && l.items == [DeclarationNode(Immutable, Leaf(x), IntegerConstantNode(NumberToken(n)))]
      && l.after.nowReading == Close && l.after.pos == 8 && l.after.log == []
  {
    var c3 := After(DeclarationInput(x, n), 3);
    DeclarationChildrenInOrder(x, n);
    var d := ParseStatement(c3);
    ListStep(c3, []);
    ListStops(d.after, [d.node]);
  }

  /** `main { immutable x := n ; }` is a program whose main block holds
      one declaration, with the identifier `x` and the integer constant `n`
      as children in that order; nothing is reported. */
  lemma DeclarationShape(x: string, n: int)
    ensures var r := Parse(DeclarationInput(x, n));
      && r.node == ProgramNode(Main, MainBlockNode(Open, [DeclarationNode(Immutable, Leaf(x), IntegerConstantNode(NumberToken(n)))]))
      && r.after.log == []
  {
    var c1 := ReadToken(Initial(DeclarationInput(x, n)));
    assert c1 == After(DeclarationInput(x, n), 1);
    var c2 := ReadToken(c1);
    assert c2 == After(DeclarationInput(x, n), 2);
    assert ReadToken(c2) == After(DeclarationInput(x, n), 3);
    BlockStep(c2);
    DeclarationStatements(x, n);
    var l := StatementList(After(DeclarationInput(x, n), 3), []);
    var close := Expect(l.after, [CloseBrace]);
    assert close.nowReading == NullToken && close.log == [];
    ProgramStep(c1);
  }
}
