/**
 * The recursive-descent parser, over the token sequence a test lexer hands
 * out (the `Parser(ILexer)` constructor). A parse position `pos` indexes the
 * current token; `pos == |toks|` is the null token the lexer returns at the
 * end of the stream. Every procedure returns the tree it built and the
 * position after it, or the error that escaped it.
 *
 * Errors are the `SyntaxError(found, expected)` that `expect` and `rName`
 * throw, and `NullToken` for the null dereferences of the code: the operator
 * probes (`getRelationTree`, `getAddOperTree`, `getMultOperTree`) ask the
 * current token for its kind without a null check, and `rRangeExpression`
 * builds an `IntTree` from the current token whatever it is.
 *
 * The code builds each tree as `new T()` followed by one `addKid` per kid;
 * the parser writes the finished `Node(tag, sym, kids)` directly, which
 * `Ast.Build` shows is the same node.
 */
module Parser {
  import opened Common
  import opened Symbols
  import opened Tokens
  import opened Ast
  import opened Grammar

  datatype ParseError = SyntaxError(found: Option<Token>, expected: Kind) | NullToken

  datatype Result<+T> = Ok(value: T) | Err(error: ParseError) {
    predicate IsFailure() {
      Err?
    }

    function PropagateFailure<U>(): Result<U>
      requires Err?
    {
      Err(error)
    }

    function Extract(): T
      requires Ok?
    {
      value
    }
  }

  /** A tree and the position of the first token after it. */
  datatype Parsed = Parsed(tree: Node, pos: nat)

  /** Trees with the position after the last of them. */
  datatype ParsedList = ParsedList(trees: seq<Node>, pos: nat)

  /** A successful parse from `pos` consumed at least one token and stayed in the stream. */
  ghost predicate Advanced(r: Result<Parsed>, pos: nat, n: nat) {
    r.Ok? ==> pos < r.value.pos <= n
  }

  /** The current token; None is the null token at the end of the stream. */
  function Current(toks: seq<Token>, pos: nat): (c: Option<Token>)
    ensures c.Some? <==> pos < |toks|
  {
    if pos < |toks| then Some(toks[pos]) else None
  }

  /** `isNextTok`: the current token exists and has kind `k`. */
  predicate IsNextTok(toks: seq<Token>, pos: nat, k: Kind) {
    pos < |toks| && toks[pos].KindOf() == k
  }

  /** `expect`: consume a token of kind `k`, or report what was found instead. */
  function Expect(toks: seq<Token>, pos: nat, k: Kind): (r: Result<nat>)
    requires pos <= |toks|
    ensures r.Ok? <==> IsNextTok(toks, pos, k)
    ensures r.Ok? ==> r.value == pos + 1
    ensures r.Err? ==> r.error == SyntaxError(Current(toks, pos), k)
  {
    if IsNextTok(toks, pos, k) then Ok(pos + 1) else Err(SyntaxError(Current(toks, pos), k))
  }

  predicate StartingDecl(toks: seq<Token>, pos: nat) {
    pos < |toks| && toks[pos].KindOf() in TypeKinds
  }

  predicate StartingStatement(toks: seq<Token>, pos: nat) {
    pos < |toks| && toks[pos].KindOf() in {If, While, Return, LeftBrace, Identifier, Forall}
  }

  /** `rProgram`: 'program' BLOCK. Tokens after the block are not looked at. */
  function Program(toks: seq<Token>, pos: nat): (r: Result<Parsed>)
    requires pos <= |toks|
    ensures Advanced(r, pos, |toks|)
    ensures r.Ok? ==> IsProgram(r.value.tree)
    decreases |toks| - pos, 0
  {
    var p :- Expect(toks, pos, Symbols.Program);
    var b :- Block(toks, p);
    Ok(Parsed(Node(ProgramTree, None, [b.tree]), b.pos))
  }

  /** `rBlock`: '{' D* S* '}'. */
  function Block(toks: seq<Token>, pos: nat): (r: Result<Parsed>)
    requires pos <= |toks|
    ensures Advanced(r, pos, |toks|)
    ensures r.Ok? ==> IsBlock(r.value.tree)
    decreases |toks| - pos, 0
  {
    var p :- Expect(toks, pos, LeftBrace);
    var ds :- Decls(toks, p);
    var ss :- Statements(toks, ds.pos);
    var q :- Expect(toks, ss.pos, RightBrace);
    BlockShape(ds.trees, ss.trees);
    Ok(Parsed(Node(BlockTree, None, ds.trees + ss.trees), q))
  }

  /** The declaration loop of `rBlock`: declarations while the current token is a type keyword. */
  function Decls(toks: seq<Token>, pos: nat): (r: Result<ParsedList>)
    requires pos <= |toks|
    ensures r.Ok? ==> pos <= r.value.pos <= |toks| && !StartingDecl(toks, r.value.pos)
    ensures r.Ok? ==> AllDecls(r.value.trees)
    decreases |toks| - pos, 3
  {
    if !StartingDecl(toks, pos) then Ok(ParsedList([], pos))
    else
      var d :- Decl(toks, pos);
      var rest :- Decls(toks, d.pos);
      AllDeclsCons(d.tree, rest.trees);
      Ok(ParsedList([d.tree] + rest.trees, rest.pos))
  }

  /** The statement loop of `rBlock`: statements while the current token can start one. */
  function Statements(toks: seq<Token>, pos: nat): (r: Result<ParsedList>)
    requires pos <= |toks|
    ensures r.Ok? ==> pos <= r.value.pos <= |toks| && !StartingStatement(toks, r.value.pos)
    ensures r.Ok? ==> AllStatements(r.value.trees)
    decreases |toks| - pos, 3
  {
    if !StartingStatement(toks, pos) then Ok(ParsedList([], pos))
    else
      var s :- Statement(toks, pos);
      var rest :- Statements(toks, s.pos);
      AllStatementsCons(s.tree, rest.trees);
      Ok(ParsedList([s.tree] + rest.trees, rest.pos))
  }

  /** `rDecl`: TYPE NAME, or TYPE NAME FUNHEAD BLOCK when `(` follows the name. */
  function Decl(toks: seq<Token>, pos: nat): (r: Result<Parsed>)
    requires pos <= |toks|
    ensures Advanced(r, pos, |toks|)
    ensures r.Ok? ==> IsDecl(r.value.tree)
    decreases |toks| - pos, 2
  {
    var t :- Type(toks, pos);
    var n :- Name(toks, t.pos);
    if IsNextTok(toks, n.pos, LeftParen) then FunctionDecl(toks, t.tree, n)
    else
      DeclShape(t.tree, n.tree);
      Ok(Parsed(Node(DeclTree, None, [t.tree, n.tree]), n.pos))
  }

  /** The function branch of `rDecl`, after its type `t` and name `n`. */
  function FunctionDecl(toks: seq<Token>, t: Node, n: Parsed): (r: Result<Parsed>)
    requires n.pos <= |toks| && IsType(t) && IsId(n.tree)
    ensures r.Ok? ==> n.pos < r.value.pos <= |toks|
    ensures r.Ok? ==> IsDecl(r.value.tree) && r.value.tree.tag == FunctionDeclTree
    decreases |toks| - n.pos, 1
  {
    var h :- FuncHead(toks, n.pos);
    var b :- Block(toks, h.pos);
    FunctionDeclShape(t, n.tree, h.tree, b.tree);
    Ok(Parsed(Node(FunctionDeclTree, None, [t, n.tree, h.tree, b.tree]), b.pos))
  }

  /** `rType`: `int`, `string`, `scientific`, or else whatever `expect(BOOLean)` makes of it. */
  function Type(toks: seq<Token>, pos: nat): (r: Result<Parsed>)
    requires pos <= |toks|
    ensures r.Ok? <==> StartingDecl(toks, pos)
    ensures r.Ok? ==> r.value == Parsed(Node(TypeTag(toks[pos].KindOf()), None, []), pos + 1)
    ensures r.Err? ==> r.error == SyntaxError(Current(toks, pos), BOOLean)
    decreases |toks| - pos, 0
  {
    if IsNextTok(toks, pos, Int) then Ok(Parsed(Node(IntTypeTree, None, []), pos + 1))
    else if IsNextTok(toks, pos, Symbols.StringType) then Ok(Parsed(Node(StringTypeTree, None, []), pos + 1))
    else if IsNextTok(toks, pos, Symbols.Scientific) then Ok(Parsed(Node(ScientificTypeTree, None, []), pos + 1))
    else
      var p :- Expect(toks, pos, BOOLean);
      Ok(Parsed(Node(BoolTypeTree, None, []), p))
  }

  /** `rFuncHead`: '(' (D list ',')? ')'. */
  function FuncHead(toks: seq<Token>, pos: nat): (r: Result<Parsed>)
    requires pos <= |toks|
    ensures Advanced(r, pos, |toks|)
    ensures r.Ok? ==> IsFormals(r.value.tree) && IsNextTok(toks, r.value.pos - 1, RightParen)
    decreases |toks| - pos, 0
  {
    var p :- Expect(toks, pos, LeftParen);
    var fs :- FormalList(toks, p);
    var q :- Expect(toks, fs.pos, RightParen);
    FormalsShape(fs.trees);
    Ok(Parsed(Node(FormalsTree, None, fs.trees), q))
  }

  /** The formals inside `rFuncHead`'s parentheses: none when `)` comes at once. */
  function FormalList(toks: seq<Token>, pos: nat): (r: Result<ParsedList>)
    requires pos <= |toks|
    ensures r.Ok? ==> pos <= r.value.pos <= |toks| && AllDecls(r.value.trees)
    ensures IsNextTok(toks, pos, RightParen) ==> r == Ok(ParsedList([], pos))
    decreases |toks| - pos, 4
  {
    if IsNextTok(toks, pos, RightParen) then Ok(ParsedList([], pos)) else Formals(toks, pos)
  }

  /** The `do ... while` of `rFuncHead`: a declaration, then more after each comma. */
  function Formals(toks: seq<Token>, pos: nat): (r: Result<ParsedList>)
    requires pos <= |toks|
    ensures r.Ok? ==> pos < r.value.pos <= |toks| && |r.value.trees| > 0
    ensures r.Ok? ==> AllDecls(r.value.trees)
    decreases |toks| - pos, 3
  {
    var d :- Decl(toks, pos);
    MoreFormals(toks, d)
  }

  /** The loop test of `Formals`: after the declaration `d`, a comma asks for more. */
  function MoreFormals(toks: seq<Token>, d: Parsed): (r: Result<ParsedList>)
    requires d.pos <= |toks| && IsDecl(d.tree)
    ensures r.Ok? ==> d.pos <= r.value.pos <= |toks| && |r.value.trees| > 0
    ensures r.Ok? ==> AllDecls(r.value.trees) && r.value.trees[0] == d.tree
    ensures !IsNextTok(toks, d.pos, Comma) ==> r == Ok(ParsedList([d.tree], d.pos))
    decreases |toks| - d.pos, 0
  {
    if IsNextTok(toks, d.pos, Comma) then
      var rest :- Formals(toks, d.pos + 1);
      AllDeclsCons(d.tree, rest.trees);
      Ok(ParsedList([d.tree] + rest.trees, rest.pos))
    else
      AllDeclsCons(d.tree, []);
      Ok(ParsedList([d.tree], d.pos))
  }

  /** `rStatement`: if, while, forall, return, a block, or else an assignment. */
  function Statement(toks: seq<Token>, pos: nat): (r: Result<Parsed>)
    requires pos <= |toks|
    ensures Advanced(r, pos, |toks|)
    ensures r.Ok? ==> IsStatement(r.value.tree)
    decreases |toks| - pos, 2
  {
    if IsNextTok(toks, pos, If) then IfStatement(toks, pos)
    else if IsNextTok(toks, pos, While) then WhileStatement(toks, pos)
    else if IsNextTok(toks, pos, Forall) then ForAllStatement(toks, pos)
    else if IsNextTok(toks, pos, Return) then ReturnStatement(toks, pos)
    else if IsNextTok(toks, pos, LeftBrace) then BlockStatement(toks, pos)
    else Assignment(toks, pos)
  }

  /** A block standing as a statement: the block's own tree. */
  function BlockStatement(toks: seq<Token>, pos: nat): (r: Result<Parsed>)
    requires pos <= |toks|
    ensures Advanced(r, pos, |toks|)
    ensures r.Ok? ==> IsStatement(r.value.tree) && r.value.tree.tag == BlockTree
    decreases |toks| - pos, 1
  {
    var b :- Block(toks, pos);
    BlockStatementShape(b.tree);
    Ok(b)
  }

  /** 'if' E 'then' BLOCK ('else' BLOCK)?, with `pos` at the `if`. */
  function IfStatement(toks: seq<Token>, pos: nat): (r: Result<Parsed>)
    requires pos < |toks|
    ensures Advanced(r, pos, |toks|)
    ensures r.Ok? ==> IsStatement(r.value.tree) && r.value.tree.tag == IfTree
    decreases |toks| - pos, 0
  {
    var c :- Expr(toks, pos + 1);
    var p :- Expect(toks, c.pos, Then);
    var b :- Block(toks, p);
    ElsePart(toks, c.tree, b)
  }

  /** The end of an `if` after its then-block `b`: an else-block when `else` follows. */
  function ElsePart(toks: seq<Token>, cond: Node, b: Parsed): (r: Result<Parsed>)
    requires b.pos <= |toks| && IsExpr(cond) && IsBlock(b.tree)
    ensures r.Ok? ==> b.pos <= r.value.pos <= |toks|
    ensures r.Ok? ==> IsStatement(r.value.tree) && r.value.tree.tag == IfTree
    ensures r.Ok? ==> r.value.tree.kids[..2] == [cond, b.tree]
    ensures r.Ok? ==> (|r.value.tree.kids| == 3 <==> IsNextTok(toks, b.pos, Else))
    ensures !IsNextTok(toks, b.pos, Else) ==> r.Ok? && r.value.pos == b.pos
    decreases |toks| - b.pos, 1
  {
    if IsNextTok(toks, b.pos, Else) then ElseBlock(toks, cond, b)
    else
      IfShape(cond, b.tree);
      Ok(Parsed(Node(IfTree, None, [cond, b.tree]), b.pos))
  }

  /** The `else` branch: `expect(Else)` right after `isNextTok(Else)` consumes the `else`, then a block follows. */
  function ElseBlock(toks: seq<Token>, cond: Node, b: Parsed): (r: Result<Parsed>)
    requires b.pos < |toks| && IsExpr(cond) && IsBlock(b.tree)
    ensures r.Ok? ==> b.pos < r.value.pos <= |toks|
    ensures r.Ok? ==> IsStatement(r.value.tree) && r.value.tree.tag == IfTree
    ensures r.Ok? ==> |r.value.tree.kids| == 3 && r.value.tree.kids[..2] == [cond, b.tree]
    decreases |toks| - b.pos, 0
  {
    var e :- Block(toks, b.pos + 1);
    IfElseShape(cond, b.tree, e.tree);
    Ok(Parsed(Node(IfTree, None, [cond, b.tree, e.tree]), e.pos))
  }

  /** 'while' E BLOCK, with `pos` at the `while`. */
  function WhileStatement(toks: seq<Token>, pos: nat): (r: Result<Parsed>)
    requires pos < |toks|
    ensures Advanced(r, pos, |toks|)
    ensures r.Ok? ==> IsStatement(r.value.tree) && r.value.tree.tag == WhileTree
    decreases |toks| - pos, 0
  {
    var c :- Expr(toks, pos + 1);
    var b :- Block(toks, c.pos);
    WhileShape(c.tree, b.tree);
    Ok(Parsed(Node(WhileTree, None, [c.tree, b.tree]), b.pos))
  }

  /** 'forall' D 'in' RANGE BLOCK, with `pos` at the `forall`. */
  function ForAllStatement(toks: seq<Token>, pos: nat): (r: Result<Parsed>)
    requires pos < |toks|
    ensures Advanced(r, pos, |toks|)
    ensures r.Ok? ==> IsStatement(r.value.tree) && r.value.tree.tag == ForAllTree
    decreases |toks| - pos, 0
  {
    var d :- Decl(toks, pos + 1);
    var p :- Expect(toks, d.pos, In);
    var g :- RangeExpr(toks, p);
    var b :- Block(toks, g.pos);
    ForAllShape(d.tree, g.tree, b.tree);
    Ok(Parsed(Node(ForAllTree, None, [d.tree, g.tree, b.tree]), b.pos))
  }

  /** 'return' E, with `pos` at the `return`. */
  function ReturnStatement(toks: seq<Token>, pos: nat): (r: Result<Parsed>)
    requires pos < |toks|
    ensures Advanced(r, pos, |toks|)
    ensures r.Ok? ==> IsStatement(r.value.tree) && r.value.tree.tag == ReturnTree
    decreases |toks| - pos, 0
  {
    var e :- Expr(toks, pos + 1);
    ReturnShape(e.tree);
    Ok(Parsed(Node(ReturnTree, None, [e.tree]), e.pos))
  }

  /** NAME '=' E: what `rStatement` tries when no keyword or `{` starts the statement. */
  function Assignment(toks: seq<Token>, pos: nat): (r: Result<Parsed>)
    requires pos <= |toks|
    ensures Advanced(r, pos, |toks|)
    ensures r.Ok? ==> IsStatement(r.value.tree) && r.value.tree.tag == AssignTree
    decreases |toks| - pos, 0
  {
    var n :- Name(toks, pos);
    var p :- Expect(toks, n.pos, Assign);
    var e :- Expr(toks, p);
    AssignShape(n.tree, e.tree);
    Ok(Parsed(Node(AssignTree, None, [n.tree, e.tree]), e.pos))
  }

  /** `rExpr`: SE, or SE relop SE; the probe for the operator needs a current token. */
  function Expr(toks: seq<Token>, pos: nat): (r: Result<Parsed>)
    requires pos <= |toks|
    ensures Advanced(r, pos, |toks|)
    ensures r.Ok? ==> IsExpr(r.value.tree)
    decreases |toks| - pos, 4
  {
    var a :- SimpleExpr(toks, pos);
    if a.pos == |toks| then Err(NullToken)
    else if toks[a.pos].KindOf() !in RelationalOps then Ok(a)
    else
      var b :- SimpleExpr(toks, a.pos + 1);
      BinaryShape(RelOpTree, toks[a.pos].symbol, a.tree, b.tree);
      Ok(Parsed(Node(RelOpTree, Some(toks[a.pos].symbol), [a.tree, b.tree]), b.pos))
  }

  /** `rRangeExpression`: '[' <tok> '..' <tok> ']', the bounds taken whatever their kind. */
  function RangeExpr(toks: seq<Token>, pos: nat): (r: Result<Parsed>)
    requires pos <= |toks|
    ensures r.Ok? <==> pos + 5 <= |toks| && IsNextTok(toks, pos, LeftBracket)
                       && IsNextTok(toks, pos + 2, Range) && IsNextTok(toks, pos + 4, RightBracket)
    ensures r.Ok? ==> r.value == Parsed(Node(RangeExpTree, None, [Node(IntTree, Some(toks[pos + 1].symbol), []),
                                                                  Node(IntTree, Some(toks[pos + 3].symbol), [])]),
                                        pos + 5)
    decreases |toks| - pos, 0
  {
    var p :- Expect(toks, pos, LeftBracket);
    if p == |toks| then Err(NullToken)
    else
      var lo := Node(IntTree, Some(toks[p].symbol), []);
      var q :- Expect(toks, p + 1, Range);
      if q == |toks| then Err(NullToken)
      else
        var hi := Node(IntTree, Some(toks[q].symbol), []);
        var e :- Expect(toks, q + 1, RightBracket);
        Ok(Parsed(Node(RangeExpTree, None, [lo, hi]), e))
  }

  /** `rSimpleExpr`: terms joined by adding operators. */
  function SimpleExpr(toks: seq<Token>, pos: nat): (r: Result<Parsed>)
    requires pos <= |toks|
    ensures Advanced(r, pos, |toks|)
    ensures r.Ok? ==> IsExpr(r.value.tree)
    decreases |toks| - pos, 3
  {
    var a :- Term(toks, pos);
    AddTail(toks, a.tree, a.pos)
  }

  /**
   * The loop of `rSimpleExpr` with `acc` the tree so far: while the current
   * token is an adding operator, the tree becomes that operator over `acc`
   * and the next term.
   */
  function AddTail(toks: seq<Token>, acc: Node, pos: nat): (r: Result<Parsed>)
    requires pos <= |toks| && IsExpr(acc)
    ensures r.Ok? ==> pos <= r.value.pos < |toks| && toks[r.value.pos].KindOf() !in AddingOps
    ensures r.Ok? ==> IsExpr(r.value.tree) && FoldsOnto(r.value.tree, acc, AddOpTree)
    decreases |toks| - pos, 0
  {
    if pos == |toks| then Err(NullToken)
    else if toks[pos].KindOf() !in AddingOps then Ok(Parsed(acc, pos))
    else
      var b :- Term(toks, pos + 1);
      var acc' := Node(AddOpTree, Some(toks[pos].symbol), [acc, b.tree]);
      BinaryShape(AddOpTree, toks[pos].symbol, acc, b.tree);
      var r :- AddTail(toks, acc', b.pos);
      FoldsOntoTrans(r.tree, acc', acc, AddOpTree);
      Ok(r)
  }

  /** `rTerm`: factors joined by multiplying operators. */
  function Term(toks: seq<Token>, pos: nat): (r: Result<Parsed>)
    requires pos <= |toks|
    ensures Advanced(r, pos, |toks|)
    ensures r.Ok? ==> IsExpr(r.value.tree)
    decreases |toks| - pos, 2
  {
    var a :- Factor(toks, pos);
    MultTail(toks, a.tree, a.pos)
  }

  /** The loop of `rTerm`, as `AddTail` with multiplying operators and factors. */
  function MultTail(toks: seq<Token>, acc: Node, pos: nat): (r: Result<Parsed>)
    requires pos <= |toks| && IsExpr(acc)
    ensures r.Ok? ==> pos <= r.value.pos < |toks| && toks[r.value.pos].KindOf() !in MultiplyingOps
    ensures r.Ok? ==> IsExpr(r.value.tree) && FoldsOnto(r.value.tree, acc, MultOpTree)
    decreases |toks| - pos, 0
  {
    if pos == |toks| then Err(NullToken)
    else if toks[pos].KindOf() !in MultiplyingOps then Ok(Parsed(acc, pos))
    else
      var b :- Factor(toks, pos + 1);
      var acc' := Node(MultOpTree, Some(toks[pos].symbol), [acc, b.tree]);
      BinaryShape(MultOpTree, toks[pos].symbol, acc, b.tree);
      var r :- MultTail(toks, acc', b.pos);
      FoldsOntoTrans(r.tree, acc', acc, MultOpTree);
      Ok(r)
  }

  /** `rFactor`: '(' E ')', a literal, a name, or a call NAME '(' (E list ',')? ')'. */
  function Factor(toks: seq<Token>, pos: nat): (r: Result<Parsed>)
    requires pos <= |toks|
    ensures Advanced(r, pos, |toks|)
    ensures r.Ok? ==> IsExpr(r.value.tree)
    decreases |toks| - pos, 1
  {
    if IsNextTok(toks, pos, LeftParen) then
      var e :- Expr(toks, pos + 1);
      var q :- Expect(toks, e.pos, RightParen);
      Ok(Parsed(e.tree, q))
    else if IsNextTok(toks, pos, INTeger) then
      Ok(Parsed(Node(IntTree, Some(toks[pos].symbol), []), pos + 1))
    else if IsNextTok(toks, pos, StringLit) then
      Ok(Parsed(Node(StringTree, Some(toks[pos].symbol), []), pos + 1))
    else if IsNextTok(toks, pos, ScientificLit) then
      Ok(Parsed(Node(ScientificTree, Some(toks[pos].symbol), []), pos + 1))
    else
      var n :- Name(toks, pos);
      if !IsNextTok(toks, n.pos, LeftParen) then Ok(n)
      else Call(toks, n.tree, n.pos)
  }

  /** The call branch of `rFactor`, from the `(` after the name `id`: '(' (E list ',')? ')'. */
  function Call(toks: seq<Token>, id: Node, pos: nat): (r: Result<Parsed>)
    requires pos < |toks| && IsId(id)
    ensures Advanced(r, pos, |toks|)
    ensures r.Ok? ==> IsExpr(r.value.tree) && r.value.tree.tag == CallTree && r.value.tree.kids[0] == id
    decreases |toks| - pos, 0
  {
    var args :- if IsNextTok(toks, pos + 1, RightParen) then Ok(ParsedList([], pos + 1))
                else Args(toks, pos + 1);
    var q :- Expect(toks, args.pos, RightParen);
    CallShape(id, args.trees);
    Ok(Parsed(Node(CallTree, None, [id] + args.trees), q))
  }

  /** The `do ... while` of a call: an expression, then more after each comma. */
  function Args(toks: seq<Token>, pos: nat): (r: Result<ParsedList>)
    requires pos <= |toks|
    ensures r.Ok? ==> pos < r.value.pos <= |toks| && |r.value.trees| > 0
    ensures r.Ok? ==> AllExprs(r.value.trees)
    decreases |toks| - pos, 5
  {
    var e :- Expr(toks, pos);
    MoreArgs(toks, e)
  }

  /** The loop test of `Args`: after the expression `e`, a comma asks for more. */
  function MoreArgs(toks: seq<Token>, e: Parsed): (r: Result<ParsedList>)
    requires e.pos <= |toks| && IsExpr(e.tree)
    ensures r.Ok? ==> e.pos <= r.value.pos <= |toks| && |r.value.trees| > 0
    ensures r.Ok? ==> AllExprs(r.value.trees) && r.value.trees[0] == e.tree
    ensures !IsNextTok(toks, e.pos, Comma) ==> r == Ok(ParsedList([e.tree], e.pos))
    decreases |toks| - e.pos, 0
  {
    if IsNextTok(toks, e.pos, Comma) then
      var rest :- Args(toks, e.pos + 1);
      AllExprsCons(e.tree, rest.trees);
      Ok(ParsedList([e.tree] + rest.trees, rest.pos))
    else
      AllExprsCons(e.tree, []);
      Ok(ParsedList([e.tree], e.pos))
  }

  /** `rName`: an identifier. */
  function Name(toks: seq<Token>, pos: nat): (r: Result<Parsed>)
    requires pos <= |toks|
    ensures r.Ok? <==> IsNextTok(toks, pos, Identifier)
    ensures r.Ok? ==> r.value == Parsed(Node(IdTree, Some(toks[pos].symbol), []), pos + 1)
    ensures r.Err? ==> r.error == SyntaxError(Current(toks, pos), Identifier)
    decreases |toks| - pos, 0
  {
    if IsNextTok(toks, pos, Identifier) then Ok(Parsed(Node(IdTree, Some(toks[pos].symbol), []), pos + 1))
    else Err(SyntaxError(Current(toks, pos), Identifier))
  }

  /** `execute` on a parser over `toks`: the program tree, or the error that escaped. */
  function Parse(toks: seq<Token>): (r: Result<Node>)
    ensures r.Ok? ==> IsProgram(r.value)
    ensures r.Ok? <==> Program(toks, 0).Ok?
    ensures !IsNextTok(toks, 0, Symbols.Program) ==> r == Err(SyntaxError(Current(toks, 0), Symbols.Program))
  {
    var p :- Program(toks, 0);
    Ok(p.tree)
  }
}
