/**
 * Properties of the parser that relate several procedures, or a procedure
 * to the tokens that follow what it parsed.
 */
module ParserFacts {
  import opened Common
  import opened Symbols
  import opened Tokens
  import opened Ast
  import opened Grammar
  import opened Parser

  /** `expect` on a matching token consumes exactly that token. */
  lemma {:induction false} ExpectMatch(toks: seq<Token>, pos: nat, k: Kind)
    requires IsNextTok(toks, pos, k)
    ensures Expect(toks, pos, k) == Ok(pos + 1)
  {
  }

  /** `expect` on any other token, or on the null token, reports what it found. */
  lemma {:induction false} ExpectMismatch(toks: seq<Token>, pos: nat, k: Kind)
    requires pos <= |toks| && !IsNextTok(toks, pos, k)
    ensures Expect(toks, pos, k) == Err(SyntaxError(Current(toks, pos), k))
  {
  }

  /** A type keyword and a name with no `(` after it make a two-kid `Decl(type, id)`. */
  lemma {:induction false} DeclPlain(toks: seq<Token>, pos: nat)
    requires StartingDecl(toks, pos) && IsNextTok(toks, pos + 1, Identifier) && !IsNextTok(toks, pos + 2, LeftParen)
    ensures Decl(toks, pos)
         == Ok(Parsed(Node(DeclTree, None, [Node(TypeTag(toks[pos].KindOf()), None, []), Node(IdTree, Some(toks[pos + 1].symbol), [])]), pos + 2))
  {
  }

  /**
   * With `(` after the name, `rDecl` goes on to the formals and the body:
   * its result is a four-kid `FunctionDecl` or the error that escaped them.
   */
  lemma {:induction false} DeclFunction(toks: seq<Token>, pos: nat)
    requires StartingDecl(toks, pos) && IsNextTok(toks, pos + 1, Identifier) && IsNextTok(toks, pos + 2, LeftParen)
    ensures Decl(toks, pos)
         == FunctionDecl(toks, Node(TypeTag(toks[pos].KindOf()), None, []), Parsed(Node(IdTree, Some(toks[pos + 1].symbol), []), pos + 2))
    ensures Decl(toks, pos).Ok? ==> Decl(toks, pos).value.tree.tag == FunctionDeclTree && |Decl(toks, pos).value.tree.kids| == 4
  {
  }

  /** A block whose statements are not followed by `}` fails expecting `RightBrace`, reporting what it found. */
  lemma {:induction false} BlockNeedsClose(toks: seq<Token>, pos: nat, ds: ParsedList, ss: ParsedList)
    requires IsNextTok(toks, pos, LeftBrace)
    requires Decls(toks, pos + 1) == Ok(ds) && Statements(toks, ds.pos) == Ok(ss)
    requires !IsNextTok(toks, ss.pos, RightBrace)
    ensures Block(toks, pos) == Err(SyntaxError(Current(toks, ss.pos), RightBrace))
  {
    ExpectMatch(toks, pos, LeftBrace);
    ExpectMismatch(toks, ss.pos, RightBrace);
  }

  /**
   * Inside a block, a type keyword after the statements is not a
   * declaration: the statement loop stops there and the block fails
   * expecting its closing brace.
   */
  lemma {:induction false} DeclAfterStatement(toks: seq<Token>, pos: nat, ds: ParsedList, ss: ParsedList)
    requires IsNextTok(toks, pos, LeftBrace)
    requires Decls(toks, pos + 1) == Ok(ds) && Statements(toks, ds.pos) == Ok(ss)
    requires ss.pos < |toks| && toks[ss.pos].KindOf() in TypeKinds
    ensures Block(toks, pos) == Err(SyntaxError(Some(toks[ss.pos]), RightBrace))
  {
    assert toks[ss.pos].KindOf() != RightBrace;
    BlockNeedsClose(toks, pos, ds, ss);
  }

  /** A type keyword can never start a statement, so a block's statements end before it. */
  lemma {:induction false} StatementsStopAtType(toks: seq<Token>, pos: nat)
    requires pos < |toks| && toks[pos].KindOf() in TypeKinds
    ensures Statements(toks, pos) == Ok(ParsedList([], pos))
  {
  }

  lemma {:induction false} StatementIf(toks: seq<Token>, pos: nat, r: Result<Parsed>, s: Result<Parsed>)
    requires IsNextTok(toks, pos, If) && r == Statement(toks, pos) && s == IfStatement(toks, pos)
    ensures r == s
  {
  }

  lemma {:induction false} IfUnfold(toks: seq<Token>, pos: nat, c: Parsed, p: nat, b: Parsed)
    requires pos < |toks| && Expr(toks, pos + 1) == Ok(c)
    requires Expect(toks, c.pos, Then) == Ok(p) && Block(toks, p) == Ok(b)
    ensures IfStatement(toks, pos) == ElsePart(toks, c.tree, b)
  {
  }

  /**
   * An `if` whose condition and then-block parsed as `c` and `b` keeps them
   * as its first two kids, and has a third exactly when `else` follows the
   * then-block; without `else` it ends where the then-block ends.
   */
  lemma {:induction false} IfElseKids(toks: seq<Token>, pos: nat, c: Parsed, p: nat, b: Parsed)
    requires IsNextTok(toks, pos, If) && Expr(toks, pos + 1) == Ok(c)
    requires Expect(toks, c.pos, Then) == Ok(p) && Block(toks, p) == Ok(b)
    ensures var r := Statement(toks, pos);
            r.Ok? ==> r.value.tree.kids[..2] == [c.tree, b.tree] && (|r.value.tree.kids| == 3 <==> IsNextTok(toks, b.pos, Else))
    ensures !IsNextTok(toks, b.pos, Else) ==> Statement(toks, pos) == Ok(Parsed(Node(IfTree, None, [c.tree, b.tree]), b.pos))
  {
    IfUnfold(toks, pos, c, p, b);
    StatementIf(toks, pos, Statement(toks, pos), IfStatement(toks, pos));
  }

  lemma {:induction false} StatementAssign(toks: seq<Token>, pos: nat, r: Result<Parsed>, s: Result<Parsed>)
    requires IsNextTok(toks, pos, Identifier) && r == Statement(toks, pos) && s == Assignment(toks, pos)
    ensures r == s
  {
    assert !IsNextTok(toks, pos, If) && !IsNextTok(toks, pos, While) && !IsNextTok(toks, pos, Forall);
    assert !IsNextTok(toks, pos, Return) && !IsNextTok(toks, pos, LeftBrace);
  }

  lemma {:induction false} AssignFails(toks: seq<Token>, pos: nat, x: ParseError)
    requires IsNextTok(toks, pos, Identifier) && Expect(toks, pos + 1, Assign) == Err(x)
    ensures Assignment(toks, pos) == Err(x)
  {
  }

  /** An assignment without `=` after the name fails expecting `Assign`. */
  lemma {:induction false} AssignNeedsEquals(toks: seq<Token>, pos: nat)
    requires IsNextTok(toks, pos, Identifier) && !IsNextTok(toks, pos + 1, Assign)
    ensures Statement(toks, pos) == Err(SyntaxError(Current(toks, pos + 1), Assign))
  {
    ExpectMismatch(toks, pos + 1, Assign);
    AssignFails(toks, pos, SyntaxError(Current(toks, pos + 1), Assign));
    StatementAssign(toks, pos, Statement(toks, pos), Assignment(toks, pos));
  }

  lemma {:induction false} StatementForAll(toks: seq<Token>, pos: nat, r: Result<Parsed>, s: Result<Parsed>)
    requires IsNextTok(toks, pos, Forall) && r == Statement(toks, pos) && s == ForAllStatement(toks, pos)
    ensures r == s
  {
    assert !IsNextTok(toks, pos, If) && !IsNextTok(toks, pos, While);
  }

  lemma {:induction false} ForAllFails(toks: seq<Token>, pos: nat, d: Parsed, x: ParseError)
    requires pos < |toks| && Decl(toks, pos + 1) == Ok(d) && Expect(toks, d.pos, In) == Err(x)
    ensures ForAllStatement(toks, pos) == Err(x)
  {
  }

  /** A `forall` whose declaration is not followed by `in` fails expecting `In`. */
  lemma {:induction false} ForAllNeedsIn(toks: seq<Token>, pos: nat, d: Parsed)
    requires IsNextTok(toks, pos, Forall) && Decl(toks, pos + 1) == Ok(d) && !IsNextTok(toks, d.pos, In)
    ensures Statement(toks, pos) == Err(SyntaxError(Current(toks, d.pos), In))
  {
    ExpectMismatch(toks, d.pos, In);
    ForAllFails(toks, pos, d, SyntaxError(Current(toks, d.pos), In));
    StatementForAll(toks, pos, Statement(toks, pos), ForAllStatement(toks, pos));
  }

  /**
   * `rExpr` applies at most one relational operator: without one after the
   * first simple expression it returns that expression's tree itself;
   * with one, the operator node over the two simple expressions, and it
   * stops after the second whatever follows.
   */
  lemma {:induction false} ExprRelation(toks: seq<Token>, pos: nat, a: Parsed)
    requires pos <= |toks| && SimpleExpr(toks, pos) == Ok(a)
    ensures a.pos < |toks|
    ensures toks[a.pos].KindOf() !in RelationalOps ==> Expr(toks, pos) == Ok(a)
    ensures toks[a.pos].KindOf() in RelationalOps ==>
              match SimpleExpr(toks, a.pos + 1)
              case Err(e) => Expr(toks, pos) == Err(e)
              case Ok(b) => Expr(toks, pos) == Ok(Parsed(Node(RelOpTree, Some(toks[a.pos].symbol), [a.tree, b.tree]), b.pos))
  {
  }

  /** `( e )` yields the tree of `e` itself, with no node for the parentheses. */
  lemma {:induction false} ParenthesesVanish(toks: seq<Token>, pos: nat, e: Parsed, q: nat)
    requires IsNextTok(toks, pos, LeftParen) && Expr(toks, pos + 1) == Ok(e) && Expect(toks, e.pos, RightParen) == Ok(q)
    ensures Factor(toks, pos) == Ok(Parsed(e.tree, q))
  {
  }

  lemma {:induction false} FactorCall(toks: seq<Token>, pos: nat)
    requires IsNextTok(toks, pos, Identifier) && IsNextTok(toks, pos + 1, LeftParen)
    ensures Factor(toks, pos) == Call(toks, Node(IdTree, Some(toks[pos].symbol), []), pos + 1)
  {
    assert !IsNextTok(toks, pos, LeftParen) && !IsNextTok(toks, pos, INTeger);
    assert !IsNextTok(toks, pos, StringLit) && !IsNextTok(toks, pos, ScientificLit);
    assert Name(toks, pos) == Ok(Parsed(Node(IdTree, Some(toks[pos].symbol), []), pos + 1));
  }

  lemma {:induction false} CallWithoutArguments(toks: seq<Token>, id: Node, pos: nat, q: nat)
    requires pos < |toks| && IsId(id) && IsNextTok(toks, pos + 1, RightParen) && Expect(toks, pos + 1, RightParen) == Ok(q)
    ensures Call(toks, id, pos) == Ok(Parsed(Node(CallTree, None, [id]), q))
  {
    assert [id] + [] == [id];
  }

  lemma {:induction false} CallWithArguments(toks: seq<Token>, id: Node, pos: nat, args: ParsedList, q: nat)
    requires pos < |toks| && IsId(id) && !IsNextTok(toks, pos + 1, RightParen)
    requires Args(toks, pos + 1) == Ok(args) && Expect(toks, args.pos, RightParen) == Ok(q)
    ensures Call(toks, id, pos) == Ok(Parsed(Node(CallTree, None, [id] + args.trees), q))
  {
  }

  /** A call with no arguments, `f()`, is a call node whose only kid is the name. */
  lemma {:induction false} EmptyCall(toks: seq<Token>, pos: nat)
    requires IsNextTok(toks, pos, Identifier) && IsNextTok(toks, pos + 1, LeftParen) && IsNextTok(toks, pos + 2, RightParen)
    ensures Factor(toks, pos) == Ok(Parsed(Node(CallTree, None, [Node(IdTree, Some(toks[pos].symbol), [])]), pos + 3))
  {
    FactorCall(toks, pos);
    ExpectMatch(toks, pos + 2, RightParen);
    CallWithoutArguments(toks, Node(IdTree, Some(toks[pos].symbol), []), pos + 1, pos + 3);
  }

  /** A call's kids are the name followed by the arguments, in order, and it ends after the `)` that closes them. */
  lemma {:induction false} CallArguments(toks: seq<Token>, pos: nat, args: ParsedList, q: nat)
    requires IsNextTok(toks, pos, Identifier) && IsNextTok(toks, pos + 1, LeftParen) && !IsNextTok(toks, pos + 2, RightParen)
    requires Args(toks, pos + 2) == Ok(args) && Expect(toks, args.pos, RightParen) == Ok(q)
    ensures Factor(toks, pos) == Ok(Parsed(Node(CallTree, None, [Node(IdTree, Some(toks[pos].symbol), [])] + args.trees), q))
  {
    FactorCall(toks, pos);
    CallWithArguments(toks, Node(IdTree, Some(toks[pos].symbol), []), pos + 1, args, q);
  }

  /**
   * Adding operators fold to the left: when the loop of `rSimpleExpr` takes
   * an operator and a term, the rest of the loop runs on the operator node
   * built over everything so far and that term.
   */
  lemma {:induction false} AddFoldsLeft(toks: seq<Token>, acc: Node, pos: nat, b: Parsed)
    requires pos < |toks| && IsExpr(acc) && toks[pos].KindOf() in AddingOps && Term(toks, pos + 1) == Ok(b)
    ensures AddTail(toks, acc, pos) == AddTail(toks, Node(AddOpTree, Some(toks[pos].symbol), [acc, b.tree]), b.pos)
  {
  }

  /** As `AddFoldsLeft`, for multiplying operators and factors. */
  lemma {:induction false} MultFoldsLeft(toks: seq<Token>, acc: Node, pos: nat, b: Parsed)
    requires pos < |toks| && IsExpr(acc) && toks[pos].KindOf() in MultiplyingOps && Factor(toks, pos + 1) == Ok(b)
    ensures MultTail(toks, acc, pos) == MultTail(toks, Node(MultOpTree, Some(toks[pos].symbol), [acc, b.tree]), b.pos)
  {
  }

  /** Every operator probe needs a current token: an expression running into the end of the stream fails. */
  lemma {:induction false} ExprAtEndFails(toks: seq<Token>)
    ensures forall acc :: IsExpr(acc) ==> AddTail(toks, acc, |toks|) == Err(NullToken)
    ensures forall acc :: IsExpr(acc) ==> MultTail(toks, acc, |toks|) == Err(NullToken)
  {
  }

  const LiteralKinds: set<Kind> := {INTeger, StringLit, ScientificLit}

  /** The leaf class `rFactor` builds for a literal token. */
  function LiteralTag(k: Kind): Tag
    requires k in LiteralKinds
  {
    match k
    case INTeger => IntTree
    case StringLit => StringTree
    case ScientificLit => ScientificTree
  }

  /** The leaf `rFactor` builds from the literal at `pos`. */
  lemma {:induction false} FactorLiteral(toks: seq<Token>, pos: nat)
    requires pos < |toks| && toks[pos].KindOf() in LiteralKinds
    ensures Factor(toks, pos) == Ok(Parsed(Node(LiteralTag(toks[pos].KindOf()), Some(toks[pos].symbol), []), pos + 1))
  {
    assert !IsNextTok(toks, pos, LeftParen);
  }

  /** A factor followed by a token that is no operator is a whole expression. */
  lemma {:induction false} LoneFactor(toks: seq<Token>, pos: nat, f: Parsed)
    requires pos <= |toks| && Factor(toks, pos) == Ok(f) && f.pos < |toks|
    requires toks[f.pos].KindOf() !in MultiplyingOps + AddingOps + RelationalOps
    ensures Expr(toks, pos) == Ok(f)
  {
    assert MultTail(toks, f.tree, f.pos) == Ok(f);
    assert Term(toks, pos) == Ok(f);
    assert AddTail(toks, f.tree, f.pos) == Ok(f);
    assert SimpleExpr(toks, pos) == Ok(f);
  }

  /** NAME '=' <literal> followed by a token that is no operator. */
  lemma {:induction false} LiteralAssignment(toks: seq<Token>, pos: nat)
    requires pos + 3 < |toks| && toks[pos].KindOf() == Identifier && toks[pos + 1].KindOf() == Assign
    requires toks[pos + 2].KindOf() in LiteralKinds
    requires toks[pos + 3].KindOf() !in MultiplyingOps + AddingOps + RelationalOps
    ensures Statement(toks, pos)
         == Ok(Parsed(Node(AssignTree, None, [Node(IdTree, Some(toks[pos].symbol), []),
                                              Node(LiteralTag(toks[pos + 2].KindOf()), Some(toks[pos + 2].symbol), [])]),
                      pos + 3))
  {
    FactorLiteral(toks, pos + 2);
    LoneFactor(toks, pos + 2, Parsed(Node(LiteralTag(toks[pos + 2].KindOf()), Some(toks[pos + 2].symbol), []), pos + 3));
    ExpectMatch(toks, pos + 1, Assign);
    StatementAssign(toks, pos, Statement(toks, pos), Assignment(toks, pos));
  }

  /** The tokens `program { T x x = <literal> }`, whatever the type keyword, names and literal. */
  ghost predicate DeclThenAssign(toks: seq<Token>) {
    && |toks| >= 8
    && toks[0].KindOf() == Symbols.Program && toks[1].KindOf() == LeftBrace
    && toks[2].KindOf() in TypeKinds && toks[3].KindOf() == Identifier
    && toks[4].KindOf() == Identifier && toks[5].KindOf() == Assign
    && toks[6].KindOf() in LiteralKinds && toks[7].KindOf() == RightBrace
  }

  /** The block of `program { T x x = <literal> }`: one declaration, then one assignment. */
  lemma {:induction false} DeclThenAssignBlock(toks: seq<Token>)
    requires DeclThenAssign(toks)
    ensures Block(toks, 1)
         == Ok(Parsed(Node(BlockTree, None,
                           [Node(DeclTree, None, [Node(TypeTag(toks[2].KindOf()), None, []), Node(IdTree, Some(toks[3].symbol), [])]),
                            Node(AssignTree, None, [Node(IdTree, Some(toks[4].symbol), []),
                                                    Node(LiteralTag(toks[6].KindOf()), Some(toks[6].symbol), [])])]),
                      8))
  {
    var d := Node(DeclTree, None, [Node(TypeTag(toks[2].KindOf()), None, []), Node(IdTree, Some(toks[3].symbol), [])]);
    var a := Node(AssignTree, None, [Node(IdTree, Some(toks[4].symbol), []),
                                     Node(LiteralTag(toks[6].KindOf()), Some(toks[6].symbol), [])]);
    OneDecl(toks);
    OneAssignment(toks);
    BlockOf(toks, 1, ParsedList([d], 4), ParsedList([a], 7));
    TwoKids(d, a);
  }

  /** A solver hint: the one-kid list the parser builds as `[d] + []`. */
  lemma {:induction false} OneKid(d: Node)
    ensures [d] + [] == [d]
  {
  }

  /** A solver hint: the two-kid list the parser builds as `[d] + [a]`. */
  lemma {:induction false} TwoKids(d: Node, a: Node)
    ensures [d] + [a] == [d, a]
  {
  }

  /** `rBlock` joins the declarations and the statements between the braces. */
  lemma {:induction false} BlockOf(toks: seq<Token>, pos: nat, ds: ParsedList, ss: ParsedList)
    requires IsNextTok(toks, pos, LeftBrace)
    requires Decls(toks, pos + 1) == Ok(ds) && ds.pos <= |toks|
    requires Statements(toks, ds.pos) == Ok(ss) && IsNextTok(toks, ss.pos, RightBrace)
    ensures Block(toks, pos) == Ok(Parsed(Node(BlockTree, None, ds.trees + ss.trees), ss.pos + 1))
  {
    ExpectMatch(toks, pos, LeftBrace);
    ExpectMatch(toks, ss.pos, RightBrace);
    Succeeds(Expect(toks, pos, LeftBrace), pos + 1);
    Succeeds(Decls(toks, pos + 1), ds);
    Succeeds(Statements(toks, ds.pos), ss);
    Succeeds(Expect(toks, ss.pos, RightBrace), ss.pos + 1);
  }

  /** A successful result does not short-circuit `:-` and hands on its value. */
  lemma Succeeds<T>(r: Result<T>, v: T)
    requires r == Ok(v)
    ensures !r.IsFailure() && r.Extract() == v
  {
  }

  lemma {:induction false} NoDecls(toks: seq<Token>, pos: nat)
    requires pos <= |toks| && !StartingDecl(toks, pos)
    ensures Decls(toks, pos) == Ok(ParsedList([], pos))
  {
  }

  lemma {:induction false} NoStatements(toks: seq<Token>, pos: nat)
    requires pos <= |toks| && !StartingStatement(toks, pos)
    ensures Statements(toks, pos) == Ok(ParsedList([], pos))
  {
  }

  lemma {:induction false} OneDecl(toks: seq<Token>)
    requires DeclThenAssign(toks)
    ensures Decls(toks, 2)
         == Ok(ParsedList([Node(DeclTree, None, [Node(TypeTag(toks[2].KindOf()), None, []), Node(IdTree, Some(toks[3].symbol), [])])], 4))
  {
    var d := Node(DeclTree, None, [Node(TypeTag(toks[2].KindOf()), None, []), Node(IdTree, Some(toks[3].symbol), [])]);
    DeclPlain(toks, 2);
    assert toks[4].KindOf() !in TypeKinds;
    NoDecls(toks, 4);
    assert StartingDecl(toks, 2);
    OneKid(d);
  }

  lemma {:induction false} OneAssignment(toks: seq<Token>)
    requires DeclThenAssign(toks)
    ensures Statements(toks, 4)
         == Ok(ParsedList([Node(AssignTree, None, [Node(IdTree, Some(toks[4].symbol), []),
                                                   Node(LiteralTag(toks[6].KindOf()), Some(toks[6].symbol), [])])], 7))
  {
    var a := Node(AssignTree, None, [Node(IdTree, Some(toks[4].symbol), []),
                                     Node(LiteralTag(toks[6].KindOf()), Some(toks[6].symbol), [])]);
    LiteralAssignment(toks, 4);
    assert toks[7].KindOf() == RightBrace;
    NoStatements(toks, 7);
    assert StartingStatement(toks, 4);
    OneKid(a);
  }

  /**
   * `program { T x x = <literal> }` parses to a program whose preorder is
   * Program, Block, Decl, the type, Id, Assign, Id, the literal.
   */
  lemma {:induction false} DeclThenAssignPreorder(toks: seq<Token>)
    requires DeclThenAssign(toks)
    ensures Parse(toks).Ok?
    ensures Preorder(Parse(toks).value)
         == [ProgramTree, BlockTree, DeclTree, TypeTag(toks[2].KindOf()), IdTree, AssignTree, IdTree, LiteralTag(toks[6].KindOf())]
  {
    DeclThenAssignBlock(toks);
    ExpectMatch(toks, 0, Symbols.Program);
    var b := Block(toks, 1).value.tree;
    assert Parse(toks) == Ok(Node(ProgramTree, None, [b]));
    PreorderOfBlock(b, toks[2].KindOf(), toks[6].KindOf());
  }

  lemma {:induction false} PreorderOfBlock(b: Node, t: Kind, l: Kind)
    requires t in TypeKinds && l in LiteralKinds
    requires b.tag == BlockTree && |b.kids| == 2
    requires b.kids[0].tag == DeclTree && |b.kids[0].kids| == 2
    requires b.kids[0].kids[0] == Node(TypeTag(t), None, []) && b.kids[0].kids[1].tag == IdTree && b.kids[0].kids[1].kids == []
    requires b.kids[1].tag == AssignTree && |b.kids[1].kids| == 2
    requires b.kids[1].kids[0].tag == IdTree && b.kids[1].kids[0].kids == []
    requires b.kids[1].kids[1].tag == LiteralTag(l) && b.kids[1].kids[1].kids == []
    ensures Preorder(Node(ProgramTree, None, [b]))
         == [ProgramTree, BlockTree, DeclTree, TypeTag(t), IdTree, AssignTree, IdTree, LiteralTag(l)]
  {
    var d := b.kids[0];
    var a := b.kids[1];
    assert Preorder(d) == [DeclTree, TypeTag(t), IdTree] by {
      LeafPreorder(d.kids[0]);
      LeafPreorder(d.kids[1]);
      PairPreorder(d);
    }
    assert Preorder(a) == [AssignTree, IdTree, LiteralTag(l)] by {
      LeafPreorder(a.kids[0]);
      LeafPreorder(a.kids[1]);
      PairPreorder(a);
    }
    PairPreorder(b);
    SinglePreorder(Node(ProgramTree, None, [b]));
  }

  lemma {:induction false} LeafPreorder(n: Node)
    requires n.kids == []
    ensures Preorder(n) == [n.tag]
  {
    assert PreorderAll(n.kids) == [];
  }

  lemma {:induction false} SinglePreorder(n: Node)
    requires |n.kids| == 1
    ensures Preorder(n) == [n.tag] + Preorder(n.kids[0])
  {
    assert n.kids[1..] == [];
    assert PreorderAll(n.kids[1..]) == [];
  }

  lemma {:induction false} PairPreorder(n: Node)
    requires |n.kids| == 2
    ensures Preorder(n) == [n.tag] + Preorder(n.kids[0]) + Preorder(n.kids[1])
  {
    assert n.kids[1..][1..] == [];
    assert PreorderAll(n.kids[1..][1..]) == [];
    assert PreorderAll(n.kids[1..]) == Preorder(n.kids[1]);
  }

  /** `rFuncHead` wraps exactly the formal list parsed between the parentheses. */
  lemma {:induction false} FuncHeadOf(toks: seq<Token>, pos: nat, fs: ParsedList, q: nat)
    requires IsNextTok(toks, pos, LeftParen) && FormalList(toks, pos + 1) == Ok(fs)
    requires Expect(toks, fs.pos, RightParen) == Ok(q)
    ensures FuncHead(toks, pos) == Ok(Parsed(Node(FormalsTree, None, fs.trees), q))
  {
    ExpectMatch(toks, pos, LeftParen);
    Succeeds(Expect(toks, pos, LeftParen), pos + 1);
    Succeeds(FormalList(toks, pos + 1), fs);
    Succeeds(Expect(toks, fs.pos, RightParen), q);
  }

  /** A formal list that does not start with `)` is the comma-separated run `Formals` reads. */
  lemma {:induction false} FormalListOf(toks: seq<Token>, pos: nat)
    requires pos <= |toks| && !IsNextTok(toks, pos, RightParen)
    ensures FormalList(toks, pos) == Formals(toks, pos)
  {
  }

  /** A declaration followed by a comma heads the list; what follows the comma is its tail. */
  lemma {:induction false} FormalsNext(toks: seq<Token>, pos: nat, d: Parsed, rest: ParsedList)
    requires pos <= |toks| && Decl(toks, pos) == Ok(d) && IsNextTok(toks, d.pos, Comma)
    requires Formals(toks, d.pos + 1) == Ok(rest)
    ensures Formals(toks, pos) == Ok(ParsedList([d.tree] + rest.trees, rest.pos))
  {
    FormalsHead(toks, pos, d);
    MoreFormalsNext(toks, d, rest);
  }

  /** A declaration with no comma after it is the whole list. */
  lemma {:induction false} FormalsLast(toks: seq<Token>, pos: nat, d: Parsed)
    requires pos <= |toks| && Decl(toks, pos) == Ok(d) && !IsNextTok(toks, d.pos, Comma)
    ensures Formals(toks, pos) == Ok(ParsedList([d.tree], d.pos))
  {
    FormalsHead(toks, pos, d);
  }

  /** An expression followed by a comma heads the arguments; what follows the comma is their tail. */
  lemma {:induction false} ArgsNext(toks: seq<Token>, pos: nat, e: Parsed, rest: ParsedList)
    requires pos <= |toks| && Expr(toks, pos) == Ok(e) && IsNextTok(toks, e.pos, Comma)
    requires Args(toks, e.pos + 1) == Ok(rest)
    ensures Args(toks, pos) == Ok(ParsedList([e.tree] + rest.trees, rest.pos))
  {
    ArgsHead(toks, pos, e);
    MoreArgsNext(toks, e, rest);
  }

  /** An expression with no comma after it is the last argument. */
  lemma {:induction false} ArgsLast(toks: seq<Token>, pos: nat, e: Parsed)
    requires pos <= |toks| && Expr(toks, pos) == Ok(e) && !IsNextTok(toks, e.pos, Comma)
    ensures Args(toks, pos) == Ok(ParsedList([e.tree], e.pos))
  {
    ArgsHead(toks, pos, e);
  }

  /** Once the first declaration is read, `Formals` is its loop test. */
  lemma {:induction false} FormalsHead(toks: seq<Token>, pos: nat, d: Parsed)
    requires pos <= |toks| && Decl(toks, pos) == Ok(d)
    ensures Formals(toks, pos) == MoreFormals(toks, d)
  {
    Succeeds(Decl(toks, pos), d);
  }

  /** Once the first expression is read, `Args` is its loop test. */
  lemma {:induction false} ArgsHead(toks: seq<Token>, pos: nat, e: Parsed)
    requires pos <= |toks| && Expr(toks, pos) == Ok(e)
    ensures Args(toks, pos) == MoreArgs(toks, e)
  {
    Succeeds(Expr(toks, pos), e);
  }

  /** After a comma, the loop test puts the declaration in front of what follows. */
  lemma {:induction false} MoreFormalsNext(toks: seq<Token>, d: Parsed, rest: ParsedList)
    requires d.pos < |toks| && IsDecl(d.tree) && IsNextTok(toks, d.pos, Comma)
    requires Formals(toks, d.pos + 1) == Ok(rest)
    ensures MoreFormals(toks, d) == Ok(ParsedList([d.tree] + rest.trees, rest.pos))
  {
   }

  /** After a comma, the loop test puts the expression in front of what follows. */
  lemma {:induction false} MoreArgsNext(toks: seq<Token>, e: Parsed, rest: ParsedList)
    requires e.pos < |toks| && IsExpr(e.tree) && IsNextTok(toks, e.pos, Comma)
    requires Args(toks, e.pos + 1) == Ok(rest)
    ensures MoreArgs(toks, e) == Ok(ParsedList([e.tree] + rest.trees, rest.pos))
  {
     assert MoreArgs(toks, e).Ok? by {
      assert Args(toks, e.pos + 1).Ok?;
    }
  }
}
