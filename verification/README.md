# Front end of a small imperative language, modelled in Dafny

This project models the front end of a small teaching compiler written in Java. Characters go in and a syntax tree comes out, in four pieces:

- **`SourceReader`** (`source_reader.dfy`) is a state machine over the lines of the input. It hands out one character per `read` and reports each line end as one space. It tracks the line number and the column of the character just returned, and it fails on every read once the input is exhausted. The Java `BufferedReader` becomes a `seq<string>` of lines without terminators.
- **`Symbols` and `Tokens`** (`symbols.dfy`, `token.dfy`):
  - token kinds;
  - the symbol table as an explicit map from spelling to kind, threaded through the lexer;
  - the interning operation behind `Symbol.symbol`;
  - the immutable `Token` record.
- **`Lexer`** (`lexer.dfy`, with the lemmas in `lexer_facts.dfy`) is `nextToken` as a pure function from a lexer state to a step. The state holds the end flag, the lookahead character, the reader and the symbol table. A step is:
  - an emitted token and the next state;
  - the end of the stream (Java `null`);
  - or a lexical error.

  Every branch is modelled:
  - whitespace skipping;
  - `//` comments;
  - string literals;
  - identifiers and reserved words;
  - integers and scientific literals;
  - one- and two-character punctuation by maximal munch.

  `Tokenize` calls `nextToken` until the stream ends.
- **`Parser`** (`parser.dfy`, with the lemmas in `parser_facts.dfy`) is a recursive-descent parser over a `seq<Token>`, as the test constructor `Parser(ILexer)` receives them. Each procedure takes a position and returns either the tree it built and the position after it, or a `SyntaxError(found, expected)`. `found` is `None` for the null token at the end of the stream.
  - The tree classes (`Ast`, `ast.dfy`) are one tagged datatype `Node(tag, sym, kids)`. `accept` is dispatch on the tag.
  - `Grammar` (`grammar.dfy`) states, as predicates over nodes, the shapes the parser builds.

Every call of `errorHandling` in the lexer ends lexing. It sets the end flag and releases the reader, and the code then dereferences the released reader, so the exception escapes `nextToken`. The model makes each such call the `LexError(ch, line, col)` outcome. The parser's null-pointer failures are modelled as the explicit error `NullToken`. They arise when an operator probe or a range bound meets the end of the stream.

### Where the code and the language description differ (the model follows the code)

- **Integers.** An integer of two or more digits is a lexical error. The check after the digit loop in `lexer/Lexer.java:262-270` fires whenever the loop has run. See `LexerFacts.DigitRunRejected`.
- **Scientific literals.**
  - Only one digit may precede the `.` (`lexer/Lexer.java:262` and `:274`).
  - The first character after the `.` is taken whatever it is, and only a second one is checked for being a digit.
  - See `LexerFacts.FractionEnd` and `LexerFacts.ScientificToken`.
- **Strings that reach a line change.** The loop in `lexer/Lexer.java:198-212` stops at the line change without an error. The character that stopped it is then skipped (`:215`) and a `StringLit` token is emitted. Only the end of the input inside a literal is an error. The literal `""` is an edge case. The character after the opening quote is appended before any test, so `""` does not close the literal: the second quote becomes its first character, and the literal runs on to the next quote.
- **Empty lines.** An empty line's end-of-line space is reported at column -1, because the column is never advanced on such a line (`lexer/readers/SourceReader.java:74-77`).
- **Trailing tokens.** `rProgram` does not look at tokens after the program's block.
- **Range bounds.** `rRangeExpression` builds its two `IntTree` bounds from whatever tokens follow `[` and `..`, without checking their kind.

## Model

| member | source | states |
|---|---|---|
| SourceReader.Read | lexer/readers/SourceReader.java:55-86 | A read succeeds exactly when characters remain, and then consumes exactly one; reachable states stay reachable. |
| SourceReader.DrainIsUpcoming | lexer/readers/SourceReader.java:55-86 | From any reachable state, the characters still handed out, with their reported line and column, are those of the reference layout of the rest of the input. |
| SourceReader.ReadsFollowLayout | lexer/readers/SourceReader.java:55-104 | Line i (from 1) delivers its characters at columns 0, 1, …, then one space that still reports line i (column -1 for an empty line); nothing else is ever delivered. |
| SourceReader.ClosedReaderFetchesNoLine | lexer/readers/SourceReader.java:41-72 | After `close` the reader finishes at most the line in hand and never fetches another. |
| SourceReader.Close | lexer/readers/SourceReader.java:41-46 | Closing keeps a reachable state reachable, and what the reader can still deliver shrinks to the rest of the line in hand. |
| SourceReader.FailureIsFinal | lexer/readers/SourceReader.java:55-72 | Once a read has failed, the next read fails too. |
| Symbols.Intern | lexer/Lexer.java:339-346 | A registered spelling yields its registered kind whatever default is asked. An unregistered spelling probed with `BogusToken` yields none and leaves the table unchanged. Any other spelling is registered under the default. Entries are never changed or removed. |
| Lexer.Start | lexer/Lexer.java:39-44 | The constructor reads the first character, so it fails exactly on an empty input; afterwards the reader holds all but that first character. |
| Lexer.SkipWhitespace | lexer/Lexer.java:170-178 | The loop stops on a non-blank lookahead, or exhausts the reader. |
| Lexer.SkipComment | lexer/Lexer.java:133-140 | The loop consumes at least one read and stops on a character reported on another line, or exhausts the reader. |
| Lexer.Accumulate | lexer/Lexer.java:227-235 | The accumulated text extends the old text by the lookahead; the end column moves by one per character appended; a normal exit leaves a lookahead the loop condition rejects. |
| Lexer.Operator | lexer/Lexer.java:331-351 | The candidate spelling starts with the lookahead and has one or two characters; its last column is its first plus its length minus one. |
| Lexer.NextToken | lexer/Lexer.java:158-361 | Every token has a registered kind and left ≤ right. The next state is reachable and strictly smaller. The table only gains entries. The end of the stream comes only with the end flag set and the reader released. |
| Lexer.MakeToken | lexer/Lexer.java:130-153 | The same guarantees for the comment filter and the validity probe. |
| Lexer.Classify | lexer/Lexer.java:180-361 | The branch chosen by a non-blank lookahead keeps the `nextToken` guarantees: registered kind, left ≤ right, smaller reachable next state, table only grows, end only with the reader released. Each branch's result is given by `LexerFacts.StringLiteral`, `IdentifierToken`, `IntegerToken`, `ScientificToken` and `MaximalMunch`. |
| Lexer.LexString | lexer/Lexer.java:183-221 | The string branch never ends the stream, and a token it emits has a registered kind and left ≤ right with a smaller reachable next state. `LexerFacts.LexStringSpec` and `StringLiteral` give its result. |
| Lexer.StringBody | lexer/Lexer.java:198-212 | The loop leaves a reachable reader with no more characters than before, and the text and end column only grow. `LexerFacts.StringBodySpec` gives its exact result. |
| Lexer.StringEnd | lexer/Lexer.java:213-220 | After the loop a token is always emitted, under the `nextToken` bounds. `LexerFacts.StringLiteral` gives the token. |
| Lexer.LexIdent | lexer/Lexer.java:223-244 | The identifier branch always emits a token, under the `nextToken` bounds. `LexerFacts.LexIdentSpec` and `IdentifierToken` give its result. |
| Lexer.LexNumber | lexer/Lexer.java:247-326 | The number branch never ends the stream and emits under the `nextToken` bounds. `LexerFacts.IntegerToken`, `DigitRunRejected` and `ScientificToken` give its result. |
| Lexer.LexScientific | lexer/Lexer.java:274-316 | The fraction never ends the stream and emits under the `nextToken` bounds. `LexerFacts.LexScientificSpec` gives its result. |
| Lexer.Exponent | lexer/Lexer.java:289-316 | The exponent never ends the stream and emits under the `nextToken` bounds. `LexerFacts.ExponentSpec` gives its result. |
| Lexer.Tokenize | lexer/Lexer.java:158-168 | Every token of the stream has a registered kind and left ≤ right. |
| Lexer.Lex | lexer/Lexer.java:39-44 | A stream exists exactly when the input has a line, and then every token has a registered kind and left ≤ right. |
| LexerFacts.AccumulateSpec | lexer/Lexer.java:227-235 | The accumulating loop collects the longest run of characters satisfying its condition. The first character outside it becomes the lookahead. A run reaching the end of the input ends with a failed read. |
| LexerFacts.SkipWhitespaceSpec | lexer/Lexer.java:170-178 | The whitespace loop stops exactly at the first non-blank character of the input, which becomes the lookahead. |
| LexerFacts.WhitespaceSkipped | lexer/Lexer.java:170-183 | `nextToken` behaves as if the first non-blank character were the lookahead, so a token's left column is that character's column. |
| LexerFacts.BlankInputEnds | lexer/Lexer.java:170-178 | An input holding only blanks ends the stream. |
| LexerFacts.EndIsFinal | lexer/Lexer.java:161-168 | Once the end flag is set, `nextToken` returns the end of the stream, releases the reader, and keeps returning the same result. |
| LexerFacts.SkipCommentSpec | lexer/Lexer.java:133-140 | The comment loop drops every character up to and including the first one reported on another line. |
| LexerFacts.CommentSkipped | lexer/Lexer.java:132-143 | `//` discards the rest of its line; the next token is scanned from the first character of a later line, or the stream ends. |
| LexerFacts.MaximalMunch | lexer/Lexer.java:331-351 | The two-character spelling is taken exactly when registered (right = left + 1). Otherwise a registered single character is a token with right = left, the second character stays the lookahead, and an unregistered one is a lexical error. |
| LexerFacts.LastPunctuation | lexer/Lexer.java:352-360 | Punctuation as the last character of the input, with only the end-of-line space after it, is a token exactly when it is registered (alone or with that space), and the next token is the end of the stream; otherwise it is a lexical error. |
| LexerFacts.IdentifierToken | lexer/Lexer.java:223-244 | An identifier is the longest run of identifier characters with right − left + 1 equal to its length. It gets its registered kind if known; otherwise `in`, `forall` or `Identifier`, and it is registered. The character after it is the lookahead. |
| LexerFacts.ReservedWordKind | lexer/Lexer.java:237-244 | While the table keeps the reserved entries, a reserved word always gets its reserved kind. |
| LexerFacts.StringBodySpec | lexer/Lexer.java:198-212 | The string loop collects characters up to the first quote or the first character on another line; running out of input first is an error. |
| LexerFacts.StringLiteral | lexer/Lexer.java:183-221 | A string token's text excludes the opening quote and the character that ended it. It spans from the opening quote to that character. End of input inside it is an error. |
| LexerFacts.ExponentSpec | lexer/Lexer.java:289-316 | The exponent is scanned exactly by the reference shape: marker, sign, at least one digit. The literal text is kept verbatim, and any deviation is a lexical error. |
| LexerFacts.ExponentMalformed | lexer/Lexer.java:290-307 | A missing marker, sign or first exponent digit is a lexical error. |
| LexerFacts.LexScientificSpec | lexer/Lexer.java:274-316 | After `d.` the scanner follows the reference shape: one fraction character, at most one further digit, then an exponent. The token text is the characters read, verbatim. |
| LexerFacts.ScientificMalformed | lexer/Lexer.java:280-288 | A third fraction digit, or input ending inside the fraction, is a lexical error. |
| LexerFacts.IntegerToken | lexer/Lexer.java:247-259 | A digit followed by neither a digit nor `.` is a one-column `INTeger` token spelled by that digit. The following character is the lookahead. |
| LexerFacts.DigitRunRejected | lexer/Lexer.java:255-271 | A digit followed by another digit is a lexical error. The lemma also covers a digit with nothing after it, a state no input reaches because every line ends with a space. |
| LexerFacts.ScientificToken | lexer/Lexer.java:272-316 | A digit followed by `.` yields what the reference shape of a scientific literal says: a token, or a lexical error when the shape fails. |
| Ast.FromToken | ast/ScientificTree.java:19-21 | A node built from a token keeps that token's symbol, which `getSymbol` returns unchanged, and has no kids. |
| Ast.Fresh | ast/ForAllTree.java:7-8 | A node built by a no-argument constructor has no symbol and no kids. |
| Ast.AddKid | parser/Parser.java:189-191 | `addKid` appends the new kid after the existing ones, in order, and keeps the node's class and symbol. |
| Ast.Build | parser/Parser.java:189-191 | `new T()` followed by one `addKid` per kid, in order, gives the node of class `T` with exactly those kids in that order. |
| Ast.Accept | ast/MultOpTree.java:18-20 | `accept` returns the result of the visitor method named after the node's own class. |
| Ast.AcceptDispatch | ast/ScientificTypeTree.java:10-12 | Each class dispatches to the visitor method named after it, and to no other. |
| Parser.Expect | parser/Parser.java:533-541 | `expect(k)` succeeds exactly when the current token exists and has kind k, consuming exactly one token. Otherwise it reports the found token (None at the end of the stream) and k. |
| Parser.Program | parser/Parser.java:123-131 | A program tree has exactly one kid, a block, and consumes at least one token. |
| Parser.Block | parser/Parser.java:140-158 | A block's kids are declarations followed by statements. |
| ParserFacts.BlockOf | parser/Parser.java:140-158 | The block's kids are exactly the declarations read after `{` followed by the statements, in order, and it ends after `}`. |
| Parser.Decls | parser/Parser.java:146-163 | The declaration loop yields only declarations and stops at a token that cannot start one. |
| Parser.Statements | parser/Parser.java:151-172 | The statement loop yields only statements and stops at a token that cannot start one. |
| Parser.Decl | parser/Parser.java:181-197 | A declaration is `Decl(type, id)` or `FunctionDecl(type, id, formals, block)`. |
| Parser.FunctionDecl | parser/Parser.java:188-193 | The function branch yields a four-kid `FunctionDecl`. |
| Parser.Type | parser/Parser.java:206-223 | A type succeeds exactly on a type keyword, consuming it and building that keyword's type node. Any other token fails expecting `BOOLean`. |
| Parser.FuncHead | parser/Parser.java:234-252 | The formals are declarations, and the head ends just after a `)`. |
| Parser.FormalList | parser/Parser.java:238-247 | An immediate `)` gives no formals; otherwise the result is only declarations. |
| ParserFacts.FormalListOf | parser/Parser.java:238-247 | When the list does not start with `)`, the formal list is what the comma loop reads. |
| Parser.Formals | parser/Parser.java:239-246 | The comma loop yields at least one declaration, all declarations. |
| Parser.MoreFormals | parser/Parser.java:241-246 | The loop test after a declaration `d`: the list starts with `d` and holds only declarations; with no comma after `d` it is `[d]` alone, ending where `d` ends. |
| ParserFacts.MoreFormalsNext | parser/Parser.java:241-246 | After a declaration and a comma, the list is that declaration followed, in order, by the formals read after the comma. |
| ParserFacts.FormalsNext | parser/Parser.java:239-246 | A declaration followed by a comma is the first formal, and the formals after the comma follow it in order. |
| ParserFacts.FormalsLast | parser/Parser.java:239-246 | A declaration with no comma after it is the last formal: the list is that declaration alone, ending where it ends. |
| ParserFacts.FuncHeadOf | parser/Parser.java:234-252 | The `Formals` node's kids are exactly the formals read between the parentheses, in order, and the head ends after the `)`. |
| Parser.Statement | parser/Parser.java:264-318 | Every statement has one of the statement shapes. |
| Parser.IfStatement | parser/Parser.java:267-280 | An `if` yields an `If` node of the statement shape. |
| Parser.ElsePart | parser/Parser.java:276-280 | The `If` node keeps the condition and then-block as its first two kids, and has a third exactly when `else` follows. |
| Parser.ElseBlock | parser/Parser.java:276-279 | After `else` the `If` node gets a third kid, keeping the condition and then-block as its first two. |
| Parser.WhileStatement | parser/Parser.java:281-288 | A `While` node has two kids, an expression and a block. |
| Parser.ForAllStatement | parser/Parser.java:289-298 | A `ForAll` node has three kids: a declaration, a range and a block. |
| Parser.ReturnStatement | parser/Parser.java:299-305 | A `Return` node has one kid, an expression. |
| Parser.BlockStatement | parser/Parser.java:306-308 | A block as a statement is the block's own tree. |
| Parser.Assignment | parser/Parser.java:310-317 | An `Assign` node has two kids, an identifier and an expression. |
| Parser.Expr | parser/Parser.java:330-342 | An expression tree has the expression shape. |
| Parser.RangeExpr | parser/Parser.java:344-360 | A range succeeds exactly on `[ _ .. _ ]`. It yields a `RangeExp` over two `IntTree` kids, lower then upper, built from the tokens at the bound positions whatever their kind. |
| Parser.SimpleExpr | parser/Parser.java:374-385 | The result has the expression shape. |
| Parser.AddTail | parser/Parser.java:377-382 | The loop stacks adding-operator nodes on the left of the tree so far, and stops at a token that is no adding operator. |
| Parser.Term | parser/Parser.java:399-410 | The result has the expression shape. |
| Parser.MultTail | parser/Parser.java:402-407 | The loop stacks `MultOp` nodes on the left of the tree so far, and stops at a token that is no multiplying operator. |
| Parser.Factor | parser/Parser.java:421-469 | A factor has the expression shape. |
| Parser.Call | parser/Parser.java:452-468 | A call node's first kid is the called name. |
| Parser.Args | parser/Parser.java:457-464 | The argument loop yields at least one expression, all expressions. |
| Parser.MoreArgs | parser/Parser.java:459-464 | The loop test after an expression `e`: the list starts with `e` and holds only expressions; with no comma after `e` it is `[e]` alone, ending where `e` ends. |
| ParserFacts.MoreArgsNext | parser/Parser.java:459-464 | After an expression and a comma, the list is that expression followed, in order, by the arguments read after the comma. |
| ParserFacts.ArgsNext | parser/Parser.java:457-464 | An expression followed by a comma is the first argument, and the arguments after the comma follow it in order. |
| ParserFacts.ArgsLast | parser/Parser.java:457-464 | An expression with no comma after it is the last argument: the list is that expression alone, ending where it ends. |
| Parser.Name | parser/Parser.java:477-487 | A name succeeds exactly on an identifier, building its `Id` leaf; anything else fails expecting `Identifier`. |
| Parser.Parse | parser/Parser.java:108-115 | `execute` succeeds exactly when `rProgram` does, with a program tree; when the first token is not `program` it fails expecting `program` and reports the token found. |
| ParserFacts.ExpectMismatch | parser/Parser.java:533-541 | `expect` on another token, or on the null token, fails reporting what it found and what it expected. |
| ParserFacts.DeclPlain | parser/Parser.java:181-197 | Without `(` after the name a declaration is a two-kid `Decl(type, id)`. |
| ParserFacts.DeclFunction | parser/Parser.java:186-193 | With `(` after the name a declaration is the function branch, a four-kid `FunctionDecl` when it succeeds. |
| ParserFacts.BlockNeedsClose | parser/Parser.java:140-158 | A block whose statements are not followed by `}` fails expecting `RightBrace`. |
| ParserFacts.DeclAfterStatement | parser/Parser.java:140-172 | A type keyword after a block's statements makes the block fail expecting `RightBrace`. |
| ParserFacts.IfElseKids | parser/Parser.java:267-280 | An `if` keeps the parsed condition and then-block as its first two kids, has a third exactly when `else` follows, and otherwise ends with the then-block. |
| ParserFacts.AssignNeedsEquals | parser/Parser.java:310-313 | A name not followed by `=` fails expecting `Assign`. |
| ParserFacts.ForAllNeedsIn | parser/Parser.java:289-294 | A `forall` whose declaration is not followed by `in` fails expecting `In`. |
| ParserFacts.ExprRelation | parser/Parser.java:330-342 | Without a relational operator after the first simple expression, `rExpr` returns that tree itself. With one, it returns the operator over the two simple expressions, and applies no second operator. |
| ParserFacts.ParenthesesVanish | parser/Parser.java:425-430 | `( e )` yields the tree of `e`, with no node for the parentheses. |
| ParserFacts.EmptyCall | parser/Parser.java:446-468 | `f()` is a call node whose only kid is the name. |
| ParserFacts.CallArguments | parser/Parser.java:446-468 | A call's kids are the name, then the arguments in order. |
| ParserFacts.AddFoldsLeft | parser/Parser.java:374-385 | Adding operators fold left: the loop continues on the operator node built over everything so far and the next term. |
| ParserFacts.MultFoldsLeft | parser/Parser.java:399-410 | Multiplying operators fold left in the same way. |
| ParserFacts.ExprAtEndFails | parser/Parser.java:490-527 | The operator probes need a current token, so an expression that runs into the end of the stream fails. |
| ParserFacts.FactorLiteral | parser/Parser.java:432-444 | A literal token becomes the leaf of its class, keeping the token's symbol. |
| ParserFacts.LiteralAssignment | parser/Parser.java:310-317 | `x = <literal>` followed by a non-operator is `Assign(Id, literal)`. |
| ParserFacts.DeclThenAssignPreorder | parser/Parser.java:123-172 | `program { T x x = <literal> }` parses. Its preorder is Program, Block, Decl, the type's node, Id, Assign, Id, the literal's node. |

## Left out

- Console output: the `errorHandling` messages, `Token.print`, the parser's debug printout, `READ_PREFIX` and `buildPrintFile`, and `Lexer.main`. They affect no result.
- The file-opening constructors of `Lexer`, `Parser` and `SourceReader`. The model starts from a list of lines (`Lexer.Start`, `Lexer.Lex`) or a list of tokens (`Parser.Parse`).
- Unicode. `Character.isWhitespace`, `isDigit`, `isJavaIdentifierStart` and `isJavaIdentifierPart` are modelled on ASCII only (`Lexer.IsWhitespace` and the like). `Character.toLowerCase(ch) == 'e'` is modelled as `e` or `E`.
- Java exceptions and null dereferences. Each becomes an explicit outcome: `LexError` for everything reached through `errorHandling`, `SyntaxError` or `NullToken` in the parser. The detour through the nested `nextToken` that `errorHandling` makes before the exception escapes is not modelled step by step.
- The lexer's unused line-number parameters and the static `lineNumber` field, which no result depends on.
- The `Symbol`, `TokenType`, `AST` and `ASTVisitor` classes are not part of this model.
  - The symbol table is a map pre-populated with the reserved words, separators, operators and type keywords used by the tests, plus `//`.
  - Only `Symbol.symbol`'s observable rule is modelled (`Symbols.Intern`).
  - Visitors are functions from the visit method and the node to a result.
- `Token`'s getters (`getLeftPosition`, `getRightPosition`, `getLineNumber`, `getSymbol`) are the datatype's fields. `getKind` and `toString` are `Token.KindOf` and `Token.Text`. Immutability comes from `Token` being a datatype, so none of these has a lemma.
- The test harnesses (`TypeTests`, `Helpers`, `TestVisitor`) and the drawing visitors, the layout visitor and the code generator. The preorder comparison `TestVisitor` performs is stated as tag equality in `ParserFacts.DeclThenAssignPreorder`.
- Lexer.NextToken: its own contract states only the bounds and invariants every step keeps (registered kind, left ≤ right, reachability, a decreasing measure, a growing table). What each branch produces is stated by the `LexerFacts` lemmas listed above.
- Lexer.Classify: like `Lexer.NextToken`, its contract keeps only the `nextToken` bounds; the branch's result is stated by the `LexerFacts` lemma its row names.
- Lexer.LexString: like `Lexer.NextToken`, its contract keeps only the `nextToken` bounds; the branch's result is stated by the `LexerFacts` lemma its row names.
- Lexer.StringBody: its contract gives only the reader and growth bounds; `LexerFacts.StringBodySpec` states the loop's exact result.
- Lexer.StringEnd: like `Lexer.NextToken`, its contract keeps only the `nextToken` bounds; the branch's result is stated by the `LexerFacts` lemma its row names.
- Lexer.LexIdent: like `Lexer.NextToken`, its contract keeps only the `nextToken` bounds; the branch's result is stated by the `LexerFacts` lemma its row names.
- Lexer.LexNumber: like `Lexer.NextToken`, its contract keeps only the `nextToken` bounds; the branch's result is stated by the `LexerFacts` lemma its row names.
- Lexer.LexScientific: like `Lexer.NextToken`, its contract keeps only the `nextToken` bounds; the branch's result is stated by the `LexerFacts` lemma its row names.
- Lexer.Exponent: like `Lexer.NextToken`, its contract keeps only the `nextToken` bounds; the branch's result is stated by the `LexerFacts` lemma its row names.
