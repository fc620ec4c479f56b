/** The parser object: a one-token lookahead cursor (`nowReading`,
    `previouslyRead`) over a scanner, and the diagnostics it has reported.
    Each method does what the Java method of the same name does, step by
    step, and is proved to build the tree, leave the cursor and record the
    diagnostics that its `Grammar` function describes: the one of the same
    name, except that `Parse` and `ParseScanner` are described by
    `Grammar.ParseFrom` and `ParsePrintExpressionList` by
    `Grammar.PrintExpressionList`. */
module Parsing {
  import opened Tokens
  import opened Scanning
  import opened Diagnostics
  import opened ParseTree
  import Lookahead
  import Grammar

  class Parser {
    const scanner: Scanner
    var nowReading: Token
    var previouslyRead: Token
    /** The syntax errors reported so far, oldest first. */
    var diagnostics: seq<Diagnostic>

    constructor (scanner: Scanner)
      ensures this.scanner == scanner
      ensures nowReading == NullToken && previouslyRead == NullToken && diagnostics == []
    {
      this.scanner := scanner;
      nowReading := NullToken;
      previouslyRead := NullToken;
      diagnostics := [];
    }

    /** The parser's cursor as a value. */
    function State(): Lookahead.Cursor
      reads this, scanner
    {
      Lookahead.Cursor(scanner.input, scanner.cursor, nowReading, previouslyRead, diagnostics)
    }

    /** A production returned `r` and left the cursor and the diagnostics
        as `p` says. */
    ghost predicate Produced(r: Node, p: Grammar.Parsed)
      reads this, scanner
    {
      r == p.node && State() == p.after
    }

    /** `Parser.parse(scanner)`: a fresh parser over the scanner. The
        tree comes with the syntax errors reported while building it. */
    static method ParseScanner(scanner: Scanner) returns (r: Node, diagnostics: seq<Diagnostic>)
      modifies scanner
      ensures var p := Grammar.ParseFrom(Lookahead.Cursor(scanner.input, old(scanner.cursor), NullToken, NullToken, []));
        r == p.node && diagnostics == p.after.log && scanner.cursor == p.after.pos
    {
      var parser := new Parser(scanner);
      r := parser.Parse();
      diagnostics := parser.diagnostics;
    }

    method Parse() returns (r: Node)
      modifies this, scanner
      ensures Produced(r, Grammar.ParseFrom(old(State())))
    {
      ReadToken();
      r := ParseProgram();
    }

    // ----- program and main block -----

    method ParseProgram() returns (r: Node)
      modifies this, scanner
      ensures Produced(r, Grammar.ParseProgram(old(State())))
    {
      if !Grammar.StartsProgram(nowReading) {
        r := SyntaxErrorNode("program");
        return;
      }
      var programToken := nowReading;
      Expect([KwMain]);
      var mainBlock := ParseMainBlock();
      if !nowReading.NullToken? {
        r := SyntaxErrorNode("end of program");
        return;
      }
      r := ProgramNode(programToken, mainBlock);
    }

    method ParseMainBlock() returns (r: Node)
      modifies this, scanner
      ensures Produced(r, Grammar.ParseMainBlock(old(State())))
    {
      if !Grammar.StartsMainBlock(nowReading) {
        r := SyntaxErrorNode("mainBlock");
        return;
      }
      ghost var c0 := State();
      var blockToken := nowReading;
      Expect([OpenBrace]);
      ghost var whole := Grammar.StatementList(State(), []);
      var statements: seq<Node> := [];
      while Grammar.StartsStatement(nowReading)
        invariant Grammar.StatementList(State(), statements) == whole
        decreases Lookahead.Remaining(State())
      {
        var statement := ParseStatement();
        statements := statements + [statement];
      }
      Expect([CloseBrace]);
      r := MainBlockNode(blockToken, statements);
      assert Grammar.ParseMainBlock(c0) == Grammar.Parsed(r, State());
    }

    // ----- statements -----

    method ParseStatement() returns (r: Node)
      modifies this, scanner
      ensures Produced(r, Grammar.ParseStatement(old(State())))
    {
      if !Grammar.StartsStatement(nowReading) {
        r := SyntaxErrorNode("statement");
        return;
      }
      if Grammar.StartsDeclaration(nowReading) {
        r := ParseDeclaration();
        return;
      }
      if Grammar.StartsPrintStatement(nowReading) {
        r := ParsePrintStatement();
        return;
      }
      assert false;
    }

    method ParsePrintStatement() returns (r: Node)
      modifies this, scanner
      ensures Produced(r, Grammar.ParsePrintStatement(old(State())))
    {
      if !Grammar.StartsPrintStatement(nowReading) {
        r := SyntaxErrorNode("print statement");
        return;
      }
      var printToken := nowReading;
      ReadToken();
      var items := ParsePrintExpressionList([]);
      Expect([Terminator]);
      r := PrintStatementNode(printToken, items);
    }

    /** Appends the printExpressions it parses to the children `parent`
        already has. */
    method ParsePrintExpressionList(parent: seq<Node>) returns (result: seq<Node>)
      modifies this, scanner
      ensures var p := Grammar.PrintExpressionList(old(State()), parent);
        result == p.items && State() == p.after
    {
      ghost var whole := Grammar.PrintExpressionList(State(), parent);
      result := parent;
      while Grammar.StartsPrintExpression(nowReading)
        invariant Grammar.PrintExpressionList(State(), result) == whole
        decreases Lookahead.Remaining(State())
      {
        result := ParsePrintExpression(result);
      }
    }

    /** Appends the expression, separator and newline it finds, in that
        order, to the children `parent` already has. */
    method ParsePrintExpression(parent: seq<Node>) returns (result: seq<Node>)
      modifies this, scanner
      ensures var p := Grammar.ParsePrintExpression(old(State()), parent);
        result == p.items && State() == p.after
    {
      ghost var e := Grammar.PrintedExpression(State(), parent);
      result := parent;
      if Grammar.StartsExpression(nowReading) {
        var child := ParseExpression();
        result := result + [child];
      }
      assert result == e.items && State() == e.after;
      ghost var sp := Grammar.PrintedSeparator(e);
      if nowReading.IsLextant([Separator]) {
        ReadToken();
        var child := SeparatorNode(previouslyRead);
        result := result + [child];
      }
      assert result == sp.items && State() == sp.after;
      if nowReading.IsLextant([KwNewline]) {
        ReadToken();
        var child := NewlineNode(previouslyRead);
        result := result + [child];
      }
    }

    method ParseDeclaration() returns (r: Node)
      modifies this, scanner
      ensures Produced(r, Grammar.ParseDeclaration(old(State())))
    {
      if !Grammar.StartsDeclaration(nowReading) {
        r := SyntaxErrorNode("declaration");
        return;
      }
      var declarationToken := nowReading;
      ReadToken();
      var identifier := ParseIdentifier();
      Expect([Assign]);
      var initializer := ParseExpression();
      Expect([Terminator]);
      r := DeclarationNode(declarationToken, identifier, initializer);
    }

    // ----- expressions -----

    method ParseExpression() returns (r: Node)
      modifies this, scanner
      ensures Produced(r, Grammar.ParseExpression(old(State())))
    {
      if !Grammar.StartsExpression(nowReading) {
        r := SyntaxErrorNode("expression");
        return;
      }
      r := ParseExpression1();
    }

    method ParseExpression1() returns (r: Node)
      modifies this, scanner
      ensures Produced(r, Grammar.ParseExpression1(old(State())))
    {
      if !Grammar.StartsExpression1(nowReading) {
        r := SyntaxErrorNode("expression<1>");
        return;
      }
      var left := ParseExpression2();
      if nowReading.IsLextant([Greater]) {
        var compareToken := nowReading;
        ReadToken();
        var right := ParseExpression2();
        r := BinaryOperatorNode(compareToken, left, right);
        return;
      }
      r := left;
    }

    method ParseExpression2() returns (r: Node)
      modifies this, scanner
      ensures Produced(r, Grammar.ParseExpression2(old(State())))
    {
      if !Grammar.StartsExpression2(nowReading) {
        r := SyntaxErrorNode("expression<2>");
        return;
      }
      ghost var whole := Grammar.ParseExpression2(State());
      var left := ParseExpression3();
      while nowReading.IsLextant([Add])
        invariant var rest := Grammar.AddTail(State(), left);
          && rest.node == whole.node
          && rest.after == whole.after
        decreases Lookahead.Remaining(State())
      {
        var additiveToken := nowReading;
        ReadToken();
        var right := ParseExpression3();
        left := BinaryOperatorNode(additiveToken, left, right);
      }
      r := left;
    }

    method ParseExpression3() returns (r: Node)
      modifies this, scanner
      ensures Produced(r, Grammar.ParseExpression3(old(State())))
    {
      if !Grammar.StartsExpression3(nowReading) {
        r := SyntaxErrorNode("expression<3>");
        return;
      }
      ghost var whole := Grammar.ParseExpression3(State());
      var left := ParseExpression4();
      while nowReading.IsLextant([Multiply])
        invariant var rest := Grammar.MulTail(State(), left);
          && rest.node == whole.node
          && rest.after == whole.after
        decreases Lookahead.Remaining(State())
      {
        var multiplicativeToken := nowReading;
        ReadToken();
        var right := ParseExpression4();
        left := BinaryOperatorNode(multiplicativeToken, left, right);
      }
      r := left;
    }

    method ParseExpression4() returns (r: Node)
      modifies this, scanner
      ensures Produced(r, Grammar.ParseExpression4(old(State())))
    {
      if !Grammar.StartsExpression4(nowReading) {
        r := SyntaxErrorNode("expression<4>");
        return;
      }
      r := ParseLiteral();
    }

    method ParseLiteral() returns (r: Node)
      modifies this, scanner
      ensures Produced(r, Grammar.ParseLiteral(old(State())))
    {
      if !Grammar.StartsLiteral(nowReading) {
        r := SyntaxErrorNode("literal");
        return;
      }
      if Grammar.StartsIntNumber(nowReading) {
        r := ParseIntNumber();
        return;
      }
      if Grammar.StartsIdentifier(nowReading) {
        r := ParseIdentifier();
        return;
      }
      if Grammar.StartsBooleanConstant(nowReading) {
        r := ParseBooleanConstant();
        return;
      }
      assert false;
    }

    // ----- terminals -----

    method ParseIntNumber() returns (r: Node)
      modifies this, scanner
      ensures Produced(r, Grammar.ParseIntNumber(old(State())))
    {
      if !Grammar.StartsIntNumber(nowReading) {
        r := SyntaxErrorNode("integer constant");
        return;
      }
      ReadToken();
      r := IntegerConstantNode(previouslyRead);
    }

    method ParseIdentifier() returns (r: Node)
      modifies this, scanner
      ensures Produced(r, Grammar.ParseIdentifier(old(State())))
    {
      if !Grammar.StartsIdentifier(nowReading) {
        r := SyntaxErrorNode("identifier");
        return;
      }
      ReadToken();
      r := IdentifierNode(previouslyRead);
    }

    method ParseBooleanConstant() returns (r: Node)
      modifies this, scanner
      ensures Produced(r, Grammar.ParseBooleanConstant(old(State())))
    {
      if !Grammar.StartsBooleanConstant(nowReading) {
        r := SyntaxErrorNode("boolean constant");
        return;
      }
      ReadToken();
      r := BooleanConstantNode(previouslyRead);
    }

    // ----- cursor and error recovery -----

    /** The lookahead becomes the previous token and the scanner's next
        token the lookahead; nothing else changes. */
    method ReadToken()
      modifies this, scanner
      ensures previouslyRead == old(nowReading)
      ensures nowReading == TokenAt(scanner.input, old(scanner.cursor))
      ensures scanner.cursor == old(scanner.cursor) + 1
      ensures diagnostics == old(diagnostics)
      ensures State() == Lookahead.ReadToken(old(State()))
    {
      previouslyRead := nowReading;
      nowReading := scanner.Next();
    }

    /** Reads one token whether or not it is one of `lextants`; reports a
        syntax error first if it is not. */
    method Expect(lextants: seq<Lextant>)
      modifies this, scanner
      ensures State() == Grammar.Expect(old(State()), lextants)
    {
      if !nowReading.IsLextant(lextants) {
        SyntaxError(nowReading, OneOf(lextants));
      }
      ReadToken();
    }

    /** Reports a syntax error at the lookahead, returns an error node
        anchored there, and reads past it. */
    method SyntaxErrorNode(expectedSymbol: string) returns (r: Node)
      modifies this, scanner
      ensures r == ErrorNode(old(nowReading))
      ensures diagnostics == old(diagnostics) + [Diagnostic(old(nowReading), Symbol(expectedSymbol))]
      ensures Produced(r, Grammar.SyntaxErrorNode(old(State()), expectedSymbol))
    {
      SyntaxError(nowReading, Symbol(expectedSymbol));
      r := ErrorNode(nowReading);
      ReadToken();
    }

    /** Hands one syntax error to the diagnostics. */
    method SyntaxError(token: Token, expecting: Expectation)
      modifies this`diagnostics
      ensures diagnostics == old(diagnostics) + [Diagnostic(token, expecting)]
    {
      diagnostics := diagnostics + [Diagnostic(token, expecting)];
    }
  }
}
