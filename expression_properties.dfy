/** What the expression productions promise about the tokens they read. An
    expression tree is read back as the tokens it spells, left to right with
    each operator between its operands. Parsing from a synchronised state
    builds a tree that spells exactly the tokens consumed (error nodes
    included, one token each), and a clean tree of the layered shapes of
    `ParseTree` is determined by the tokens it spells. Together: when the
    parser reports nothing, the tree it builds is the only clean
    left-leaning tree over the tokens it read, which is left associativity
    and the precedence of `*` over `+` over `>`. */
module ExpressionProperties {
  import opened Tokens
  import opened Scanning
  import opened Lookahead
  import opened ParseTree
  import opened Grammar

  /** The scanner has handed out exactly the tokens before `pos`, and the
      last of them is the lookahead: the state of a parser once it has read
      its first token. */
  predicate Synced(c: Cursor) {
    c.pos >= 1 && c.nowReading == TokenAt(c.input, c.pos - 1)
  }

  /** How many tokens an expression tree spells. */
  function Size(n: Node): (k: nat)
    ensures k >= 1
  {
    if n.BinaryOperatorNode? then Size(n.left) + 1 + Size(n.right) else 1
  }

  /** The tree spells the tokens of `input` from index `i` on. */
  predicate SpellsFrom(n: Node, input: seq<Token>, i: nat) {
    if n.BinaryOperatorNode? then
      && SpellsFrom(n.left, input, i)
      && TokenAt(input, i + Size(n.left)) == n.token
      && SpellsFrom(n.right, input, i + Size(n.left) + 1)
    else
      TokenAt(input, i) == n.token
  }

  // ----- Facts about trees alone -----

  /** A binary node spells its left operand, its operator, then its right
      operand. */
  lemma OperandsSpell(n: Node, s: seq<Token>, i: nat)
    requires n.BinaryOperatorNode? && SpellsFrom(n, s, i)
    ensures SpellsFrom(n.left, s, i) && TokenAt(s, i + Size(n.left)) == n.token
    ensures SpellsFrom(n.right, s, i + Size(n.left) + 1)
    ensures Size(n) == Size(n.left) + 1 + Size(n.right)
  {
  }

  /** Both operands of a clean binary node are clean. */
  lemma CleanOperands(n: Node)
    requires n.BinaryOperatorNode? && Clean(n)
    ensures Clean(n.left) && Clean(n.right)
  {
  }

  /** A binary term is a term times a factor. */
  lemma TermOperands(n: Node)
    requires n.BinaryOperatorNode? && IsTerm(n)
    ensures n.token == LextantToken(Multiply) && IsTerm(n.left) && IsFactor(n.right)
  {
  }

  /** A sum is a term, or a sum plus a term. */
  lemma SumOperands(n: Node)
    requires IsSum(n) && !IsTerm(n)
    ensures n.BinaryOperatorNode? && n.token == LextantToken(Add) && IsSum(n.left) && IsTerm(n.right)
  {
  }

  /** A comparison that is not a sum is a sum `>` a sum. */
  lemma ComparisonOperands(n: Node)
    requires IsComparison(n) && !IsSum(n)
    ensures n.BinaryOperatorNode? && n.token == LextantToken(Greater) && IsSum(n.left) && IsSum(n.right)
  {
  }

  /** An operator between two spelled operands spells the binary node. */
  lemma Combine(left: Node, op: Token, right: Node, s: seq<Token>, i: nat, k: nat, t: seq<Token>, j: nat)
    requires SpellsFrom(left, s, i) && k == i + Size(left) && TokenAt(s, k) == op
    requires SpellsFrom(right, t, j) && t == s && j == k + 1
    ensures SpellsFrom(BinaryOperatorNode(op, left, right), s, i)
    ensures Size(BinaryOperatorNode(op, left, right)) == Size(left) + 1 + Size(right)
  {
  }

  // ----- An expression spells what it consumed -----

  lemma Expression4Spells(c: Cursor)
    requires Synced(c)
    ensures var r := ParseExpression4(c);
      && SpellsFrom(r.node, c.input, c.pos - 1) && Size(r.node) == 1
      && r.after.pos == c.pos + 1 && Synced(r.after)
  {
  }

  /** The loop of expr3 extends a tree spelling the tokens from `i` up to
      the lookahead into one spelling the tokens from `i` up to where it
      stops. */
  lemma {:induction false} MulTailSpells(c: Cursor, left: Node, i: nat)
    requires Synced(c) && SpellsFrom(left, c.input, i) && i + Size(left) == c.pos - 1
    ensures var r := MulTail(c, left);
      && SpellsFrom(r.node, c.input, i) && i + Size(r.node) == r.after.pos - 1 && Synced(r.after)
    decreases Remaining(c)
  {
    if c.nowReading.IsLextant([Multiply]) {
      var c1 := ReadToken(c);
      var right := ParseExpression4(c1);
      Expression4Spells(c1);
      Combine(left, c.nowReading, right.node, c.input, i, c.pos - 1, c1.input, c1.pos - 1);
      ReadTokenRemaining(c);
      ReadTokenRemaining(c1);
      MulTailSpells(right.after, BinaryOperatorNode(c.nowReading, left, right.node), i);
    }
  }

  lemma Expression3Spells(c: Cursor)
    requires Synced(c)
    ensures var r := ParseExpression3(c);
      && SpellsFrom(r.node, c.input, c.pos - 1) && Size(r.node) == r.after.pos - c.pos && Synced(r.after)
  {
    if StartsExpression3(c.nowReading) {
      var left := ParseExpression4(c);
      Expression4Spells(c);
      MulTailSpells(left.after, left.node, c.pos - 1);
    }
  }

  /** The loop of expr2, as `MulTailSpells` is for expr3. */
  lemma {:induction false} AddTailSpells(c: Cursor, left: Node, i: nat)
    requires Synced(c) && SpellsFrom(left, c.input, i) && i + Size(left) == c.pos - 1
    ensures var r := AddTail(c, left);
      && SpellsFrom(r.node, c.input, i) && i + Size(r.node) == r.after.pos - 1 && Synced(r.after)
    decreases Remaining(c)
  {
    if c.nowReading.IsLextant([Add]) {
      var c1 := ReadToken(c);
      var right := ParseExpression3(c1);
      Expression3Spells(c1);
      Combine(left, c.nowReading, right.node, c.input, i, c.pos - 1, c1.input, c1.pos - 1);
      AddTailSpells(right.after, BinaryOperatorNode(c.nowReading, left, right.node), i);
    }
  }

  lemma Expression2Spells(c: Cursor)
    requires Synced(c)
    ensures var r := ParseExpression2(c);
      && SpellsFrom(r.node, c.input, c.pos - 1) && Size(r.node) == r.after.pos - c.pos && Synced(r.after)
  {
    if StartsExpression2(c.nowReading) {
      var left := ParseExpression3(c);
      Expression3Spells(c);
      AddTailSpells(left.after, left.node, c.pos - 1);
    }
  }

  /** The `>` branch of expr1: a `>` and a sum after a tree spelling the
      tokens from `i` up to the lookahead. */
  lemma GreaterSpells(d: Cursor, left: Node, i: nat)
    requires Synced(d) && SpellsFrom(left, d.input, i) && i + Size(left) == d.pos - 1
    ensures var right := ParseExpression2(ReadToken(d));
      var n := BinaryOperatorNode(d.nowReading, left, right.node);
      && SpellsFrom(n, d.input, i) && i + Size(n) == right.after.pos - 1 && Synced(right.after)
  {
    var d1 := ReadToken(d);
    var right := ParseExpression2(d1);
    Expression2Spells(d1);
    Combine(left, d.nowReading, right.node, d.input, i, d.pos - 1, d1.input, d1.pos - 1);
  }

  lemma Expression1Spells(c: Cursor)
    requires Synced(c)
    ensures var r := ParseExpression1(c);
      && SpellsFrom(r.node, c.input, c.pos - 1) && Size(r.node) == r.after.pos - c.pos && Synced(r.after)
  {
    if StartsExpression1(c.nowReading) {
      var left := ParseExpression2(c);
      Expression2Spells(c);
      if left.after.nowReading.IsLextant([Greater]) {
        GreaterSpells(left.after, left.node, c.pos - 1);
      }
    }
  }

  /** An expression, error nodes included, spells exactly the tokens its
      production consumed, in order, and leaves the parser synchronised. */
  lemma ExpressionSpells(c: Cursor)
    requires Synced(c)
    ensures var r := ParseExpression(c);
      && SpellsFrom(r.node, c.input, c.pos - 1) && Size(r.node) == r.after.pos - c.pos && Synced(r.after)
  {
    if StartsExpression(c.nowReading) {
      Expression1Spells(c);
    }
  }

  // ----- A clean layered tree is determined by the tokens it spells -----

  /** A clean factor is determined by its one token: a number makes an
      integer constant, an identifier an identifier, `true`/`false` a
      boolean constant. */
  lemma FactorUnique(a: Node, b: Node, s: seq<Token>, i: nat)
    requires IsFactor(a) && Clean(a) && SpellsFrom(a, s, i)
    requires IsFactor(b) && Clean(b) && SpellsFrom(b, s, i)
    ensures a == b
  {
  }

  /** A clean binary term is a clean term, a `*` at `p` and a clean factor
      (of one token, so `p` is known from where the term ends). */
  lemma TermParts(n: Node, s: seq<Token>, i: nat, p: nat)
    requires IsTerm(n) && n.BinaryOperatorNode? && Clean(n) && SpellsFrom(n, s, i) && p + 2 == i + Size(n)
    ensures n.token == LextantToken(Multiply) && TokenAt(s, p) == n.token
    ensures IsTerm(n.left) && Clean(n.left) && SpellsFrom(n.left, s, i) && i + Size(n.left) == p
    ensures IsFactor(n.right) && Clean(n.right) && SpellsFrom(n.right, s, p + 1)
  {
    TermOperands(n);
    CleanOperands(n);
    OperandsSpell(n, s, i);
  }

  /** A clean sum that is no term is a clean sum, a `+` at `p` and a clean
      term. */
  lemma SumParts(n: Node, s: seq<Token>, i: nat, p: nat)
    requires IsSum(n) && !IsTerm(n) && Clean(n) && SpellsFrom(n, s, i)
    requires n.BinaryOperatorNode? && p == i + Size(n.left)
    ensures n.token == LextantToken(Add) && TokenAt(s, p) == n.token
    ensures IsSum(n.left) && Clean(n.left) && SpellsFrom(n.left, s, i)
    ensures IsTerm(n.right) && Clean(n.right) && SpellsFrom(n.right, s, p + 1)
    ensures i + Size(n) == p + 1 + Size(n.right)
  {
    SumOperands(n);
    CleanOperands(n);
    OperandsSpell(n, s, i);
  }

  /** A clean comparison that is no sum is a clean sum, a `>` at `p` and a
      clean sum. */
  lemma ComparisonParts(n: Node, s: seq<Token>, i: nat, p: nat)
    requires IsComparison(n) && !IsSum(n) && Clean(n) && SpellsFrom(n, s, i)
    requires n.BinaryOperatorNode? && p == i + Size(n.left)
    ensures n.token == LextantToken(Greater) && TokenAt(s, p) == n.token
    ensures IsSum(n.left) && Clean(n.left) && SpellsFrom(n.left, s, i)
    ensures IsSum(n.right) && Clean(n.right) && SpellsFrom(n.right, s, p + 1)
    ensures i + Size(n) == p + 1 + Size(n.right)
  {
    ComparisonOperands(n);
    CleanOperands(n);
    OperandsSpell(n, s, i);
  }

  /** A clean term spells no `+` and no `>`: only factors and `*`. */
  lemma {:induction false} TermHasNoAdd(n: Node, s: seq<Token>, i: nat, k: nat)
    requires IsTerm(n) && Clean(n) && SpellsFrom(n, s, i) && i <= k < i + Size(n)
    ensures !TokenAt(s, k).IsLextant([Add, Greater])
  {
    if n.BinaryOperatorNode? {
      var p := i + Size(n) - 2;
      TermParts(n, s, i, p);
      if k < p {
        TermHasNoAdd(n.left, s, i, k);
      } else if k > p {
        assert k == p + 1;
        TermHasNoAdd(n.right, s, p + 1, k);
      }
    }
  }

  /** A clean sum spells no `>`. */
  lemma {:induction false} SumHasNoGreater(n: Node, s: seq<Token>, i: nat, k: nat)
    requires IsSum(n) && Clean(n) && SpellsFrom(n, s, i) && i <= k < i + Size(n)
    ensures !TokenAt(s, k).IsLextant([Greater])
  {
    if IsTerm(n) {
      TermHasNoAdd(n, s, i, k);
    } else {
      SumOperands(n);
      var p := i + Size(n.left);
      SumParts(n, s, i, p);
      if k < p {
        SumHasNoGreater(n.left, s, i, k);
      } else if k > p {
        TermHasNoAdd(n.right, s, p + 1, k);
      }
    }
  }

  /** Two clean terms spelling the same tokens are the same tree: the last
      `*` is the root, and what precedes it the left operand. */
  lemma {:induction false} TermUnique(a: Node, b: Node, s: seq<Token>, i: nat)
    requires IsTerm(a) && Clean(a) && SpellsFrom(a, s, i)
    requires IsTerm(b) && Clean(b) && SpellsFrom(b, s, i)
    requires Size(a) == Size(b)
    ensures a == b
  {
    if a.BinaryOperatorNode? && b.BinaryOperatorNode? {
      var p := i + Size(a) - 2;
      TermParts(a, s, i, p);
      TermParts(b, s, i, p);
      TermUnique(a.left, b.left, s, i);
      FactorUnique(a.right, b.right, s, p + 1);
    } else {
      assert !a.BinaryOperatorNode? && !b.BinaryOperatorNode?;
      FactorUnique(a, b, s, i);
    }
  }

  /** A clean sum spelling the same tokens as a clean term is a term: a
      `+` would have to lie among the term's tokens. */
  lemma TermSizedSum(a: Node, b: Node, s: seq<Token>, i: nat)
    requires IsTerm(a) && Clean(a) && SpellsFrom(a, s, i)
    requires IsSum(b) && SpellsFrom(b, s, i) && Size(a) == Size(b)
    ensures IsTerm(b)
  {
    if !IsTerm(b) {
      SumOperands(b);
      OperandsSpell(b, s, i);
      TermHasNoAdd(a, s, i, i + Size(b.left));
    }
  }

  /** Of two clean sums spelling the same tokens, both or neither are
      terms. */
  lemma SameSumLayer(a: Node, b: Node, s: seq<Token>, i: nat)
    requires IsSum(a) && Clean(a) && SpellsFrom(a, s, i)
    requires IsSum(b) && Clean(b) && SpellsFrom(b, s, i)
    requires Size(a) == Size(b)
    ensures IsTerm(a) <==> IsTerm(b)
  {
    if IsTerm(a) {
      TermSizedSum(a, b, s, i);
    }
    if IsTerm(b) {
      TermSizedSum(b, a, s, i);
    }
  }

  /** A clean term right after a `+` at `p` cannot hold another `+` at
      `q` before the place where a second term after `q` ends. */
  lemma AddNotInside(x: Node, p: nat, y: Node, q: nat, s: seq<Token>)
    requires IsTerm(x) && Clean(x) && SpellsFrom(x, s, p + 1)
    requires TokenAt(s, q) == LextantToken(Add) && p + Size(x) == q + Size(y)
    ensures q <= p
  {
    if p < q {
      TermHasNoAdd(x, s, p + 1, q);
    }
  }

  /** Two clean terms, each right after a `+`, that end at the same place
      start at the same place. */
  lemma AddsAlign(x: Node, p: nat, y: Node, q: nat, s: seq<Token>)
    requires IsTerm(x) && Clean(x) && SpellsFrom(x, s, p + 1) && TokenAt(s, p) == LextantToken(Add)
    requires IsTerm(y) && Clean(y) && SpellsFrom(y, s, q + 1) && TokenAt(s, q) == LextantToken(Add)
    requires p + Size(x) == q + Size(y)
    ensures p == q
  {
    AddNotInside(x, p, y, q, s);
    AddNotInside(y, q, x, p, s);
  }

  /** Two clean sums spelling the same tokens are the same tree: the last
      `+` is the root. */
  lemma {:induction false} SumUnique(a: Node, b: Node, s: seq<Token>, i: nat)
    requires IsSum(a) && Clean(a) && SpellsFrom(a, s, i)
    requires IsSum(b) && Clean(b) && SpellsFrom(b, s, i)
    requires Size(a) == Size(b)
    ensures a == b
  {
    SameSumLayer(a, b, s, i);
    if IsTerm(a) {
      TermUnique(a, b, s, i);
    } else {
      SumOperands(a);
      SumOperands(b);
      var p := i + Size(a.left);
      var q := i + Size(b.left);
      SumParts(a, s, i, p);
      SumParts(b, s, i, q);
      AddsAlign(a.right, p, b.right, q, s);
      SumUnique(a.left, b.left, s, i);
      TermUnique(a.right, b.right, s, p + 1);
    }
  }

  /** A clean comparison spelling the same tokens as a clean sum is a sum:
      a `>` would have to lie among the sum's tokens. */
  lemma SumSizedComparison(a: Node, b: Node, s: seq<Token>, i: nat)
    requires IsSum(a) && Clean(a) && SpellsFrom(a, s, i)
    requires IsComparison(b) && SpellsFrom(b, s, i) && Size(a) == Size(b)
    ensures IsSum(b)
  {
    if !IsSum(b) {
      ComparisonOperands(b);
      OperandsSpell(b, s, i);
      SumHasNoGreater(a, s, i, i + Size(b.left));
    }
  }

  /** Of two clean comparisons spelling the same tokens, both or neither
      are sums. */
  lemma SameComparisonLayer(a: Node, b: Node, s: seq<Token>, i: nat)
    requires IsComparison(a) && Clean(a) && SpellsFrom(a, s, i)
    requires IsComparison(b) && Clean(b) && SpellsFrom(b, s, i)
    requires Size(a) == Size(b)
    ensures IsSum(a) <==> IsSum(b)
  {
    if IsSum(a) {
      SumSizedComparison(a, b, s, i);
    }
    if IsSum(b) {
      SumSizedComparison(b, a, s, i);
    }
  }

  /** A clean sum right after a `>` at `p` cannot hold another `>` at
      `q` before the place where a second sum after `q` ends. */
  lemma GreaterNotInside(x: Node, p: nat, y: Node, q: nat, s: seq<Token>)
    requires IsSum(x) && Clean(x) && SpellsFrom(x, s, p + 1)
    requires TokenAt(s, q) == LextantToken(Greater) && p + Size(x) == q + Size(y)
    ensures q <= p
  {
    if p < q {
      SumHasNoGreater(x, s, p + 1, q);
    }
  }

  /** Two clean sums, each right after a `>`, that end at the same place
      start at the same place. */
  lemma GreatersAlign(x: Node, p: nat, y: Node, q: nat, s: seq<Token>)
    requires IsSum(x) && Clean(x) && SpellsFrom(x, s, p + 1) && TokenAt(s, p) == LextantToken(Greater)
    requires IsSum(y) && Clean(y) && SpellsFrom(y, s, q + 1) && TokenAt(s, q) == LextantToken(Greater)
    requires p + Size(x) == q + Size(y)
    ensures p == q
  {
    GreaterNotInside(x, p, y, q, s);
    GreaterNotInside(y, q, x, p, s);
  }

  /** Two clean comparisons with a `>` spelling the same tokens are the
      same tree. */
  lemma GreaterUnique(a: Node, b: Node, s: seq<Token>, i: nat)
    requires IsComparison(a) && !IsSum(a) && Clean(a) && SpellsFrom(a, s, i)
    requires IsComparison(b) && !IsSum(b) && Clean(b) && SpellsFrom(b, s, i)
    requires Size(a) == Size(b)
    ensures a == b
  {
    ComparisonOperands(a);
    ComparisonOperands(b);
    var p := i + Size(a.left);
    var q := i + Size(b.left);
    ComparisonParts(a, s, i, p);
    ComparisonParts(b, s, i, q);
    GreatersAlign(a.right, p, b.right, q, s);
    SumUnique(a.left, b.left, s, i);
    SumUnique(a.right, b.right, s, p + 1);
  }

  /** Two clean comparisons spelling the same tokens are the same tree:
      the one `>`, if any, is the root. */
  lemma ComparisonUnique(a: Node, b: Node, s: seq<Token>, i: nat)
    requires IsComparison(a) && Clean(a) && SpellsFrom(a, s, i)
    requires IsComparison(b) && Clean(b) && SpellsFrom(b, s, i)
    requires Size(a) == Size(b)
    ensures a == b
  {
    SameComparisonLayer(a, b, s, i);
    if IsSum(a) {
      SumUnique(a, b, s, i);
    } else {
      GreaterUnique(a, b, s, i);
    }
  }

  /** When an expression reports nothing, the tree built is the only clean
      comparison-shaped tree (a left-leaning chain of `+` over left-leaning
      chains of `*`, with at most one `>` on top) over the tokens the
      parser consumed. */
  lemma ExpressionIsTheLayeredTree(c: Cursor, n: Node)
    requires Synced(c)
    requires IsComparison(n) && Clean(n) && SpellsFrom(n, c.input, c.pos - 1)
    ensures var r := ParseExpression(c);
      |r.after.log| == |c.log| && Size(n) == r.after.pos - c.pos ==> n == r.node
  {
    var r := ParseExpression(c);
    ExpressionSpells(c);
    if |r.after.log| == |c.log| && Size(n) == r.after.pos - c.pos {
      ComparisonUnique(n, r.node, c.input, c.pos - 1);
    }
  }
}
