# A verified model of a recursive-descent parser

This project models `Parser`, the recursive-descent parser of a small
teaching compiler. The parser turns a token stream into a parse tree for
this grammar:

- `program -> main mainBlock`
- `mainBlock -> { statement* }`
- `statement -> declaration | printStatement`
- `declaration -> immutable identifier := expression ;`
- `printStatement -> print printExpression* ;`
- `printExpression -> expression? ,? newline?`
- `expr -> expr1`
- `expr1 -> expr2 [> expr2]?`
- `expr2 -> expr3 [+ expr3]*`
- `expr3 -> expr4 [* expr4]*`
- `expr4 -> literal`
- `literal -> number | identifier | true | false`

The parser looks one token ahead. It recovers from errors rather than
stopping. A production whose first token is wrong reports a syntax error and
returns an error node anchored at that token, and the token is read.
`expect` reads one token whether or not it matches, and reports a syntax
error when it does not.

The model has two layers.

- **The grammar as functions.** `Grammar` (grammar.dfy) has one pure
  function per production over a `Cursor` value. A cursor holds:
  - the scanner's input and position;
  - the lookahead `nowReading`;
  - `previouslyRead`;
  - the diagnostics reported so far.

  Each function's contract states the production's promises:
  - every production reads at least one token, except the nullable
    printExpression (`ParsePrintExpression` reads and appends nothing
    when the lookahead starts no print expression); the loop helpers
    (`MulTail`, `AddTail`, `StatementList`, `PrintExpressionList`) and the
    optional parts of a printExpression (`PrintedExpression`,
    `PrintedSeparator`, `PrintedNewline`) may read nothing too;
  - what is left never grows;
  - the log is only appended to;
  - the tree has the layer's shape (`ParseTree`);
  - for every production except program, the production's guard holds
    exactly when the result is not an error node; a program can also be
    an error node when input is left after its main block;
  - a parse that reports nothing builds a tree without error nodes.
- **The parser object.** `Parsing.Parser` (parser.dfy) is a class with the
  Java fields. Its methods follow the Java methods statement by statement:
  the same loops, `readToken`, `expect` and `syntaxErrorNode`. Each method
  is proved to return the tree, and leave the state, that its `Grammar`
  function gives. The pairing is by name (`ParseX` with `Grammar.ParseX`)
  except for three cases: `Parse` with `Grammar.ParseFrom`;
  `ParseScanner` also with `Grammar.ParseFrom`, from a fresh cursor; and
  `ParsePrintExpressionList` with `Grammar.PrintExpressionList`.

The properties are stated against the grammar functions.

- **Expressions** (expression_properties.dfy):
  - Each expression tree spells exactly the tokens the parse consumed, in
    order, with error nodes included.
  - A clean tree of the layered shapes is determined by the tokens it
    spells.
  - Together, when nothing is reported, the parse is the only clean layered
    tree over those tokens. This is left associativity and the precedence
    of `*` over `+` over `>`.
- **Statements** (statement_properties.dfy): guard failures, exhaustive
  dispatch, the children of a declaration, and input left after the main
  block.
- **Print lists** (grammar.dfy): printExpressionList keeps the parent's
  children and appends the successive printExpressions' children in the
  order they are parsed (`Grammar.PrintExpressionListSteps`).
- **Worked parses** (examples.dfy): small inputs, for any identifier names
  and any number.

The scanner is a fixed token sequence followed by `NullToken` forever.
Syntax errors are values (`Diagnostics.Diagnostic`): the offending token
and what was expected there.

How the code recovers from errors, in three cases:

- Input left after the main block. `parseProgram` returns
  `syntaxErrorNode("end of program")`, which reads that token
  (src/parser/Parser.java:58-60, 349-354). `StatementProperties.TrailingInput`
  states this.
- A declaration missing its `:=`. This gives four diagnostics, because
  `expect` reads the mismatched token and the errors cascade
  (`Examples.MissingAssign`, for `main { immutable x n ; }`).
- `a > b > c`. The expression is `a > b`, and the second `>` is left as the
  lookahead. The error comes from whoever parses next
  (`Examples.ChainedComparison`).

## Model

| member | source | states |
|---|---|---|
| Scanning.Scanner.Next | src/parser/Parser.java:338 | the scanner hands out the token at its position, or `NullToken` past the end, and advances by one |
| Lookahead.ReadToken | src/parser/Parser.java:336-339 | the lookahead becomes the previous token and the scanner's next token becomes the lookahead; the log is unchanged |
| Lookahead.ReadTokenRemaining | src/parser/Parser.java:336-339 | reading never increases what is left to read, and strictly decreases it unless the lookahead is already end of input |
| Lookahead.Report | src/parser/Parser.java:355-358 | reporting appends exactly one diagnostic and moves nothing |
| Grammar.StartsProgram | src/parser/Parser.java:64-66 | holds exactly for the `main` keyword |
| Grammar.StartsMainBlock | src/parser/Parser.java:87-89 | holds exactly for `{` |
| Grammar.StartsStatement | src/parser/Parser.java:109-112 | holds exactly when the token starts a print statement or a declaration |
| Grammar.StartsPrintStatement | src/parser/Parser.java:127-129 | holds exactly for the `print` keyword |
| Grammar.StartsPrintExpression | src/parser/Parser.java:161-163 | holds exactly when the token starts an expression or is `,` or `newline` |
| Grammar.StartsDeclaration | src/parser/Parser.java:180-182 | holds exactly for the `immutable` keyword |
| Grammar.StartsExpression | src/parser/Parser.java:202-204 | holds exactly when the token starts an expression<1> |
| Grammar.StartsExpression1 | src/parser/Parser.java:223-225 | holds exactly when the token starts an expression<2> |
| Grammar.StartsExpression2 | src/parser/Parser.java:243-245 | holds exactly when the token starts a literal (the source skips expression<3> here, and so does the model) |
| Grammar.StartsExpression3 | src/parser/Parser.java:263-265 | holds exactly when the token starts an expression<4> |
| Grammar.StartsExpression4 | src/parser/Parser.java:274-276 | holds exactly when the token starts a literal |
| Grammar.StartsLiteral | src/parser/Parser.java:296-298 | holds exactly when the token starts a number, an identifier or a boolean constant |
| Grammar.StartsIntNumber | src/parser/Parser.java:308-310 | holds exactly for number tokens |
| Grammar.StartsIdentifier | src/parser/Parser.java:320-322 | holds exactly for identifier tokens |
| Grammar.StartsBooleanConstant | src/parser/Parser.java:332-334 | holds exactly for the `true` and `false` keywords |
| Grammar.NothingStartsAtEnd | src/parser/Parser.java:109-112 | the end-of-input token starts no program, block, statement, print item, declaration or expression, so every loop stops there |
| Grammar.Expect | src/parser/Parser.java:343-348 | reads exactly one token; the diagnostic `OneOf(lextants)` is added exactly when the lookahead is not one of them |
| Grammar.SyntaxErrorNode | src/parser/Parser.java:349-354 | an error node anchored at the lookahead, exactly one diagnostic naming the expected symbol, and exactly one token read |
| Grammar.ParseIntNumber | src/parser/Parser.java:301-310 | reads one token; an integer constant node exactly when it is a number, else an error node and one diagnostic |
| Grammar.ParseIdentifier | src/parser/Parser.java:313-322 | reads one token; an identifier node exactly when it is an identifier, else an error node and one diagnostic |
| Grammar.ParseBooleanConstant | src/parser/Parser.java:325-334 | reads one token; a boolean constant node exactly when it is `true`/`false`, else an error node and one diagnostic |
| Grammar.ParseLiteral | src/parser/Parser.java:279-298 | reads one token and yields a factor anchored at it, an error exactly when the token starts no literal |
| Grammar.ParseExpression4 | src/parser/Parser.java:268-276 | reads one token, yields a factor, is an error exactly when the guard fails, and is clean when nothing is reported |
| Grammar.MulTail | src/parser/Parser.java:254-260 | the `*` loop extends a term to a term, stops at the first lookahead that is not `*`, and never grows what is left |
| Grammar.ParseExpression3 | src/parser/Parser.java:248-265 | a term, an error exactly when the guard fails, not stopped at a `*`, with strict progress |
| Grammar.AddTail | src/parser/Parser.java:234-240 | the `+` loop extends a sum to a sum and stops at the first lookahead that is not `+` |
| Grammar.ParseExpression2 | src/parser/Parser.java:228-245 | a sum, an error exactly when the guard fails, not stopped at a `+`, with strict progress |
| Grammar.ParseExpression1 | src/parser/Parser.java:207-225 | a comparison (at most one `>`), an error exactly when the guard fails, with strict progress |
| Grammar.ParseExpression | src/parser/Parser.java:196-204 | a comparison, an error exactly when the lookahead starts no expression, clean when nothing is reported |
| Grammar.ParseDeclaration | src/parser/Parser.java:166-182 | a declaration node (`immutable`, identifier or error, comparison) exactly when the lookahead is `immutable`, else an error node |
| Grammar.Initializer | src/parser/Parser.java:174-176 | reads at least the `:=` and `;` slots and yields a comparison |
| Grammar.PrintedExpression | src/parser/Parser.java:146-149 | appends one comparison exactly when the lookahead starts an expression, else changes nothing |
| Grammar.PrintedSeparator | src/parser/Parser.java:150-154 | appends a separator node and reads it exactly when the lookahead is `,`, else changes nothing |
| Grammar.PrintedNewline | src/parser/Parser.java:155-159 | appends a newline node and reads it exactly when the lookahead is `newline`, else changes nothing |
| Grammar.ParsePrintExpression | src/parser/Parser.java:145-163 | appends something, and reads something, exactly when the lookahead starts a print expression; appends print items only |
| Grammar.PrintExpressionShape | src/parser/Parser.java:145-160 | keeps the parent's children and appends expression, separator and newline in that order, each at most once |
| Grammar.PrintExpressionParts | src/parser/Parser.java:145-160 | what one printExpression appends is an optional expression, then an optional separator, then an optional newline |
| Grammar.PrintExpressionList | src/parser/Parser.java:131-139 | the parent's children are kept as a prefix; the loop stops exactly at a lookahead that starts no print expression; all appended children are print items |
| Grammar.PrintExpressionAppends | src/parser/Parser.java:142-160 | what one printExpression appends, and where it stops, do not depend on the parent's existing children |
| Grammar.PrintedExpressionAppends | src/parser/Parser.java:146-149 | the same for the optional expression |
| Grammar.PrintedSeparatorAppends | src/parser/Parser.java:150-154 | the same for the optional separator |
| Grammar.PrintedNewlineAppends | src/parser/Parser.java:155-159 | the same for the optional newline |
| Grammar.PrintExpressionListAppends | src/parser/Parser.java:131-139 | the list appends after the parent's children exactly what it would append to no children, and stops at the same place |
| Grammar.PrintExpressionListStep | src/parser/Parser.java:135-137 | one turn of the loop: the first printExpression, then the list from where it stopped, on the extended children |
| Grammar.PrintExpressionListSteps | src/parser/Parser.java:131-139 | the children after the parent's are the successive printExpressions' children in the order they are parsed: the first one's, then the rest of the list's |
| Grammar.ParsePrintStatement | src/parser/Parser.java:115-129 | a print statement of print items exactly when the lookahead is `print`, else an error node |
| Grammar.ParseStatement | src/parser/Parser.java:96-112 | a declaration or print statement exactly when the lookahead starts a statement, else an error node |
| Grammar.StatementList | src/parser/Parser.java:80-83 | the statements already parsed are kept as a prefix; the loop stops exactly at a lookahead that starts no statement; every appended child is a statement |
| Grammar.ParseMainBlock | src/parser/Parser.java:73-89 | a main block of statements exactly when the lookahead is `{`, else an error node |
| Grammar.ParseProgram | src/parser/Parser.java:48-66 | a program node (or an error node); a program node only when it began at `main` and the lookahead after the main block is `NullToken` |
| Grammar.ParseFrom | src/parser/Parser.java:39-42 | reads the first token, then a program: the root is a program or an error node |
| Grammar.Parse | src/parser/Parser.java:30-33 | every token sequence parses to a program or an error node; no diagnostics means no error node anywhere |
| Parsing.Parser.constructor | src/parser/Parser.java:34-37 | a fresh parser over the scanner: no token read, nothing reported |
| Parsing.Parser.ParseScanner | src/parser/Parser.java:30-33 | returns the tree and the diagnostics `Grammar.ParseFrom` gives for the scanner's remaining input, and leaves the scanner where it says |
| Parsing.Parser.Parse | src/parser/Parser.java:39-42 | returns the tree and leaves the state that `Grammar.ParseFrom` gives |
| Parsing.Parser.ParseProgram | src/parser/Parser.java:48-63 | returns the tree and leaves the state that `Grammar.ParseProgram` gives |
| Parsing.Parser.ParseMainBlock | src/parser/Parser.java:73-86 | the statement loop, proved against `Grammar.StatementList` by a loop invariant |
| Parsing.Parser.ParseStatement | src/parser/Parser.java:96-108 | returns the tree and leaves the state that `Grammar.ParseStatement` gives |
| Parsing.Parser.ParsePrintStatement | src/parser/Parser.java:115-126 | returns the tree and leaves the state that `Grammar.ParsePrintStatement` gives |
| Parsing.Parser.ParsePrintExpressionList | src/parser/Parser.java:134-139 | the loop, proved against `Grammar.PrintExpressionList` by a loop invariant |
| Parsing.Parser.ParsePrintExpression | src/parser/Parser.java:145-160 | the children and state that `Grammar.ParsePrintExpression` gives |
| Parsing.Parser.ParseDeclaration | src/parser/Parser.java:166-179 | returns the tree and leaves the state that `Grammar.ParseDeclaration` gives |
| Parsing.Parser.ParseExpression | src/parser/Parser.java:196-201 | returns the tree and leaves the state that `Grammar.ParseExpression` gives |
| Parsing.Parser.ParseExpression1 | src/parser/Parser.java:207-222 | returns the tree and leaves the state that `Grammar.ParseExpression1` gives |
| Parsing.Parser.ParseExpression2 | src/parser/Parser.java:228-242 | the `+` loop, proved against `Grammar.AddTail` by a loop invariant |
| Parsing.Parser.ParseExpression3 | src/parser/Parser.java:248-262 | the `*` loop, proved against `Grammar.MulTail` by a loop invariant |
| Parsing.Parser.ParseExpression4 | src/parser/Parser.java:268-273 | returns the tree and leaves the state that `Grammar.ParseExpression4` gives |
| Parsing.Parser.ParseLiteral | src/parser/Parser.java:279-295 | returns the tree and leaves the state that `Grammar.ParseLiteral` gives |
| Parsing.Parser.ParseIntNumber | src/parser/Parser.java:301-307 | returns the tree and leaves the state that `Grammar.ParseIntNumber` gives |
| Parsing.Parser.ParseIdentifier | src/parser/Parser.java:313-319 | returns the tree and leaves the state that `Grammar.ParseIdentifier` gives |
| Parsing.Parser.ParseBooleanConstant | src/parser/Parser.java:325-331 | returns the tree and leaves the state that `Grammar.ParseBooleanConstant` gives |
| Parsing.Parser.ReadToken | src/parser/Parser.java:336-339 | the previous token becomes the old lookahead and the lookahead the scanner's next token; the diagnostics are unchanged |
| Parsing.Parser.Expect | src/parser/Parser.java:343-348 | the state `Grammar.Expect` gives: one token read, one diagnostic exactly on a mismatch |
| Parsing.Parser.SyntaxErrorNode | src/parser/Parser.java:349-354 | an error node at the old lookahead, one diagnostic appended, and one token read |
| Parsing.Parser.SyntaxError | src/parser/Parser.java:355-358 | appends exactly one diagnostic and changes nothing else |
| ExpressionProperties.Expression4Spells | src/parser/Parser.java:268-273 | from a synchronised state the factor spells the one token read |
| ExpressionProperties.MulTailSpells | src/parser/Parser.java:254-260 | the `*` loop turns a tree spelling the tokens up to the lookahead into one spelling the tokens up to where it stops |
| ExpressionProperties.Expression3Spells | src/parser/Parser.java:248-262 | a term spells exactly the tokens consumed |
| ExpressionProperties.AddTailSpells | src/parser/Parser.java:234-240 | the `+` loop, as for `*` |
| ExpressionProperties.Expression2Spells | src/parser/Parser.java:228-242 | a sum spells exactly the tokens consumed |
| ExpressionProperties.GreaterSpells | src/parser/Parser.java:213-219 | the `>` branch spells left operand, `>`, right operand |
| ExpressionProperties.Expression1Spells | src/parser/Parser.java:207-222 | a comparison spells exactly the tokens consumed |
| ExpressionProperties.ExpressionSpells | src/parser/Parser.java:196-201 | an expression, error nodes included, spells exactly the tokens consumed, in order, and leaves the parser synchronised |
| ExpressionProperties.FactorUnique | src/parser/Parser.java:279-298 | a clean factor is determined by its token |
| ExpressionProperties.TermHasNoAdd | src/parser/Parser.java:253-260 | a clean term spells no `+` and no `>` |
| ExpressionProperties.SumHasNoGreater | src/parser/Parser.java:233-240 | a clean sum spells no `>` |
| ExpressionProperties.TermUnique | src/parser/Parser.java:248-262 | two clean terms spelling the same tokens are the same tree (`*` associates to the left) |
| ExpressionProperties.SumUnique | src/parser/Parser.java:228-242 | two clean sums spelling the same tokens are the same tree (`+` associates to the left and binds looser than `*`) |
| ExpressionProperties.GreaterUnique | src/parser/Parser.java:207-222 | two clean comparisons with a `>` spelling the same tokens are the same tree |
| ExpressionProperties.ComparisonUnique | src/parser/Parser.java:207-222 | two clean comparisons spelling the same tokens are the same tree |
| ExpressionProperties.ExpressionIsTheLayeredTree | src/parser/Parser.java:188-262 | when an expression reports nothing, any clean layered tree spelling the tokens it consumed is the tree it built |
| StatementProperties.SyntaxErrorNodeRejectsOne | src/parser/Parser.java:349-354 | one error node at the lookahead, one diagnostic naming the symbol, exactly that token read |
| StatementProperties.StatementGuards | src/parser/Parser.java:48-168 | each of program, mainBlock, statement, print statement and declaration, on a wrong first token, is an error node for one token with one diagnostic naming it |
| StatementProperties.ExpressionGuards | src/parser/Parser.java:196-334 | the same for expression, expression<1> to expression<4>, literal, integer constant, identifier and boolean constant |
| StatementProperties.StatementDispatch | src/parser/Parser.java:96-112 | no token starts both a declaration and a print statement; the first clause restates `startsStatement`, and the fall-through of the dispatch is proved unreachable in `Grammar.ParseStatement` and `Parsing.Parser.ParseStatement` |
| StatementProperties.LiteralDispatch | src/parser/Parser.java:279-298 | a token is at most one of a number, an identifier and a boolean constant; the first clause restates `startsLiteral`, and the fall-through is proved unreachable in `Grammar.ParseLiteral` and `Parsing.Parser.ParseLiteral` |
| StatementProperties.DeclarationChildren | src/parser/Parser.java:166-179 | anchor `immutable`; first child from the next token (an identifier node exactly when it is an identifier); second child spells the tokens after the `:=` slot; with no diagnostics, `:=` and `;` stood in their slots |
| StatementProperties.InitializerSpells | src/parser/Parser.java:174-176 | the `:=` slot, an expression spelling what it consumed, the `;` slot |
| StatementProperties.TrailingInput | src/parser/Parser.java:58-62 | input after the main block gives an error node at that token, reads it and adds "end of program"; otherwise a program node over the block |
| Examples.Precedence | src/parser/Parser.java:228-262 | `a + b * c` parses to `a + (b * c)` with no diagnostics |
| Examples.LeftAssociative | src/parser/Parser.java:248-262 | `a * b * c` parses to `(a * b) * c` with no diagnostics |
| Examples.ChainedComparison | src/parser/Parser.java:207-222 | `a > b > c` parses to `a > b`, leaving the second `>` as lookahead |
| Examples.PrintFirst | src/parser/Parser.java:145-160 | the first printExpression of `print m , n ;` appends the constant `m` and a separator node |
| Examples.PrintSecond | src/parser/Parser.java:145-160 | the second appends the constant `n` after those and stops at the `;` |
| Examples.PrintListRest | src/parser/Parser.java:134-139 | from the second printExpression the loop appends `n` and stops at the `;` |
| Examples.PrintList | src/parser/Parser.java:134-139 | the printExpressions of `print m , n ;` give `m`, separator, `n`, in that order |
| Examples.PrintSequence | src/parser/Parser.java:115-126 | `print m , n ;` is a print statement with children `m`, separator, `n`, in that order, and no diagnostics |
| Examples.EmptyProgram | src/parser/Parser.java:48-86 | `main { }` is a program with an empty main block and no diagnostics |
| Examples.DeclarationShape | src/parser/Parser.java:166-179 | `main { immutable x := n ; }` is program, main block, declaration with children `x` then `n`, no diagnostics |
| Examples.DeclarationInitializer | src/parser/Parser.java:174-176 | the initializer of that declaration is the integer constant `n` |
| Examples.DeclarationChildrenInOrder | src/parser/Parser.java:166-179 | the declaration node of that program, children in order |
| Examples.DeclarationStatements | src/parser/Parser.java:80-83 | that block's statement list is the one declaration |
| Examples.MissingAssign | src/parser/Parser.java:343-348 | `main { immutable x n ; }` still yields a program tree, with four diagnostics in order |
| Examples.MissingAssignInitializer | src/parser/Parser.java:174-176 | the missing `:=` is reported at `n`, the expression at `;`, the `;` at `}` |
| Examples.MissingAssignDeclaration | src/parser/Parser.java:166-179 | the declaration holds the identifier and an error node at `;` |
| Examples.MissingAssignStatements | src/parser/Parser.java:80-83 | the statement list is that one declaration, ending at end of input |
| Examples.MissingAssignBlock | src/parser/Parser.java:84 | the block's `}` is reported at end of input |

## Left out

- The logger and the message text (src/parser/Parser.java:355-362). A syntax error is a `Diagnostic` value: the token, plus the expected symbol or lextants. The text, the token's location and the logger are not modelled.
- Source locations of tokens, and the scanner's internals. The scanner is a fixed token sequence followed by `NullToken`.
- A `NullToken` inside the input sequence. A real scanner returns it only once its input is exhausted; the model does not forbid it in the sequence and treats the first `NullToken` as end of input, so tokens after it are never read.
- Java's `null` before the first `readToken`. Both token fields start as `NullToken`. No production is called before `parse()` reads the first token.
- The `assert false` branches of `parseStatement` and `parseLiteral`. The model proves them unreachable.
- Tokens other than numbers, identifiers, the lextants the parser tests for and end of input. The token alphabet has no case for other keywords or punctuators, or for a lexical-error token. The parser treats any such token like any other token that starts nothing, so the model's error paths cover them.
- The tree's node classes, parent links and visitors. The tree is a value (`ParseTree.Node`). `SeparatorNode` is one of its cases.
- ExpressionProperties.ExpressionIsTheLayeredTree: shows that the parse is the only clean layered tree over the tokens it consumed. It does not show the converse: that every clean layered tree's tokens parse back to it with no diagnostics.
- Parsing.Parser.ReadToken: the `modifies` frames say the scanner object may change as a whole; the only scanner field that changes is its position.
