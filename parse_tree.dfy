/** The parse tree, as an immutable value. Every node keeps the token that
    anchored its creation; a construct that could not be parsed is an
    `ErrorNode` in the place the grammar expects, never a missing child. */
module ParseTree {
  import opened Tokens

  datatype Node =
    | ProgramNode(token: Token, mainBlock: Node)
    | MainBlockNode(token: Token, statements: seq<Node>)
    | DeclarationNode(token: Token, identifier: Node, initializer: Node)
    | PrintStatementNode(token: Token, items: seq<Node>)
    | BinaryOperatorNode(token: Token, left: Node, right: Node)
    | IntegerConstantNode(token: Token)
    | IdentifierNode(token: Token)
    | BooleanConstantNode(token: Token)
    | SeparatorNode(token: Token)
    | NewlineNode(token: Token)
    | ErrorNode(token: Token)

  /** No `ErrorNode` anywhere in the tree. */
  predicate Clean(n: Node) {
    match n
    case ProgramNode(_, m) => Clean(m)
    case MainBlockNode(_, ss) => forall i :: 0 <= i < |ss| ==> Clean(ss[i])
    case DeclarationNode(_, id, init) => Clean(id) && Clean(init)
    case PrintStatementNode(_, items) => forall i :: 0 <= i < |items| ==> Clean(items[i])
    case BinaryOperatorNode(_, l, r) => Clean(l) && Clean(r)
    case ErrorNode(_) => false
    case _ => true
  }

  /** No `ErrorNode` in any of the trees. */
  predicate AllClean(ns: seq<Node>) {
    forall i :: 0 <= i < |ns| ==> Clean(ns[i])
  }

  // Shapes of the expression layers: a factor is a literal (or an error in
  // its place); a term is a left-leaning chain of `*` over factors; a sum a
  // left-leaning chain of `+` over terms; a comparison at most one `>`
  // between two sums.

  predicate IsFactor(n: Node) {
    || (n.IntegerConstantNode? && n.token.NumberToken?)
    || (n.IdentifierNode? && n.token.IdentifierToken?)
    || (n.BooleanConstantNode? && n.token.IsLextant([KwTrue, KwFalse]))
    || n.ErrorNode?
  }

  predicate IsTerm(n: Node) {
    IsFactor(n) ||
    (n.BinaryOperatorNode? && n.token == LextantToken(Multiply) && IsTerm(n.left) && IsFactor(n.right))
  }

  predicate IsSum(n: Node) {
    IsTerm(n) ||
    (n.BinaryOperatorNode? && n.token == LextantToken(Add) && IsSum(n.left) && IsTerm(n.right))
  }

  predicate IsComparison(n: Node) {
    IsSum(n) ||
    (n.BinaryOperatorNode? && n.token == LextantToken(Greater) && IsSum(n.left) && IsSum(n.right))
  }

  // Shapes of the statement layers.

  predicate IsIdentifierOrError(n: Node) {
    (n.IdentifierNode? && n.token.IdentifierToken?) || n.ErrorNode?
  }

  /** `immutable identifier := expression ;`, children in that order. */
  predicate IsDeclaration(n: Node) {
    && n.DeclarationNode?
    && n.token == LextantToken(KwImmutable)
    && IsIdentifierOrError(n.identifier)
    && IsComparison(n.initializer)
  }

  /** What a print statement holds: expressions, separators and newlines. */
  predicate IsPrintItem(n: Node) {
    || (n.SeparatorNode? && n.token == LextantToken(Separator))
    || (n.NewlineNode? && n.token == LextantToken(KwNewline))
    || IsComparison(n)
  }

  predicate AllPrintItems(ns: seq<Node>) {
    forall i :: 0 <= i < |ns| ==> IsPrintItem(ns[i])
  }

  predicate IsPrintStatement(n: Node) {
    && n.PrintStatementNode?
    && n.token == LextantToken(KwPrint)
    && AllPrintItems(n.items)
  }

  predicate IsStatement(n: Node) {
    IsDeclaration(n) || IsPrintStatement(n)
  }

  predicate AllStatements(ns: seq<Node>) {
    forall i :: 0 <= i < |ns| ==> IsStatement(ns[i])
  }

  predicate IsMainBlock(n: Node) {
    && n.MainBlockNode?
    && n.token == LextantToken(OpenBrace)
    && AllStatements(n.statements)
  }

  predicate IsProgram(n: Node) {
    && n.ProgramNode?
    && n.token == LextantToken(KwMain)
    && (IsMainBlock(n.mainBlock) || n.mainBlock.ErrorNode?)
  }

  /** Appending one tree keeps each of the list properties exactly when
      the tree has it. */
  lemma AppendOne(ns: seq<Node>, n: Node)
    ensures AllClean(ns + [n]) <==> AllClean(ns) && Clean(n)
    ensures AllPrintItems(ns + [n]) <==> AllPrintItems(ns) && IsPrintItem(n)
    ensures AllStatements(ns + [n]) <==> AllStatements(ns) && IsStatement(n)
  {
    var all := ns + [n];
    assert all[|ns|] == n;
    assert forall i :: 0 <= i < |ns| ==> all[i] == ns[i];
  }
}
