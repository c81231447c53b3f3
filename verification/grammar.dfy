/**
 * The shapes of the trees the parser builds, as a reference grammar over
 * nodes: which class a node has, whether it keeps a symbol and of which
 * kind, and how many kids of which shapes it has, in order.
 */
module Grammar {
  import opened Common
  import opened Symbols
  import opened Ast

  const TypeTags: set<Tag> := {IntTypeTree, BoolTypeTree, StringTypeTree, ScientificTypeTree}
  const DeclTags: set<Tag> := {DeclTree, FunctionDeclTree}
  const StatementTags: set<Tag> := {IfTree, WhileTree, ForAllTree, ReturnTree, BlockTree, AssignTree}

  /** The type node `rType` builds for a type keyword. */
  function TypeTag(k: Kind): (t: Tag)
    requires k in TypeKinds
    ensures t in TypeTags
  {
    match k
    case Int => IntTypeTree
    case BOOLean => BoolTypeTree
    case StringType => StringTypeTree
    case Scientific => ScientificTypeTree
  }

  /** A node of class `tag` that keeps a symbol of one of the kinds `kinds`. */
  predicate Keeps(n: Node, tag: Tag, kinds: set<Kind>) {
    n.tag == tag && n.sym.Some? && n.sym.value.kind in kinds
  }

  predicate IsType(n: Node) {
    n.tag in TypeTags && n.sym.None? && n.kids == []
  }

  predicate IsId(n: Node) {
    Keeps(n, IdTree, {Identifier}) && n.kids == []
  }

  /** A bound of a range: an `IntTree` leaf, whatever the kind of the token it was built from. */
  predicate IsBound(n: Node) {
    n.tag == IntTree && n.sym.Some? && n.kids == []
  }

  predicate IsRange(n: Node) {
    n.tag == RangeExpTree && n.sym.None? && |n.kids| == 2 && IsBound(n.kids[0]) && IsBound(n.kids[1])
  }

  /** D: `Decl(type, id)`, or `FunctionDecl(type, id, formals, block)`. */
  ghost predicate IsDecl(n: Node)
    decreases n, 2
  {
    && n.sym.None?
    && (|| (n.tag == DeclTree && |n.kids| == 2 && IsType(n.kids[0]) && IsId(n.kids[1]))
        || (&& n.tag == FunctionDeclTree && |n.kids| == 4
            && IsType(n.kids[0]) && IsId(n.kids[1]) && IsFormals(n.kids[2]) && IsBlock(n.kids[3])))
  }

  /** FUNHEAD: `Formals` over zero or more declarations. */
  ghost predicate IsFormals(n: Node)
    decreases n, 2
  {
    n.tag == FormalsTree && n.sym.None? && AllDecls(n.kids)
  }

  /** BLOCK: `Block` over declarations followed by statements (D* S*). */
  ghost predicate IsBlock(n: Node)
    decreases n, 2
  {
    n.tag == BlockTree && n.sym.None? && DeclsThenStatements(n.kids)
  }

  ghost predicate AllDecls(ks: seq<Node>)
    decreases ks, 0
  {
    |ks| == 0 || (IsDecl(ks[0]) && AllDecls(ks[1..]))
  }

  ghost predicate AllStatements(ks: seq<Node>)
    decreases ks, 0
  {
    |ks| == 0 || (IsStatement(ks[0]) && AllStatements(ks[1..]))
  }

  /** Zero or more declarations, then zero or more statements. */
  ghost predicate DeclsThenStatements(ks: seq<Node>)
    decreases ks, 1
  {
    || AllStatements(ks)
    || (IsDecl(ks[0]) && DeclsThenStatements(ks[1..]))
  }

  /** S: if (with or without else), while, forall, return, a block, or an assignment. */
  ghost predicate IsStatement(n: Node)
    decreases n, 3
  {
    var k := n.kids;
    && n.sym.None?
    && match n.tag
       case IfTree => (|k| == 2 || |k| == 3) && IsExpr(k[0]) && IsBlock(k[1]) && (|k| == 3 ==> IsBlock(k[2]))
       case WhileTree => |k| == 2 && IsExpr(k[0]) && IsBlock(k[1])
       case ForAllTree => |k| == 3 && IsDecl(k[0]) && IsRange(k[1]) && IsBlock(k[2])
       case ReturnTree => |k| == 1 && IsExpr(k[0])
       case BlockTree => IsBlock(n)
       case AssignTree => |k| == 2 && IsId(k[0]) && IsExpr(k[1])
       case _ => false
  }

  /**
   * E: a binary operator node over two expressions, keeping the operator's
   * symbol; a literal or a name; or `Call(id, args...)`. Parentheses leave
   * no node of their own.
   */
  ghost predicate IsExpr(n: Node)
    decreases n, 1
  {
    var k := n.kids;
    || ((Keeps(n, RelOpTree, RelationalOps) || Keeps(n, AddOpTree, AddingOps) || Keeps(n, MultOpTree, MultiplyingOps))
        && |k| == 2 && IsExpr(k[0]) && IsExpr(k[1]))
    || ((Keeps(n, IntTree, {INTeger}) || Keeps(n, StringTree, {StringLit}) || Keeps(n, ScientificTree, {ScientificLit})
         || Keeps(n, IdTree, {Identifier}))
        && k == [])
    || (n.tag == CallTree && n.sym.None? && |k| >= 1 && IsId(k[0]) && AllExprs(k[1..]))
  }

  ghost predicate AllExprs(ks: seq<Node>)
    decreases ks, 0
  {
    |ks| == 0 || (IsExpr(ks[0]) && AllExprs(ks[1..]))
  }

  /** PROGRAM: `Program` over exactly one block. */
  ghost predicate IsProgram(n: Node) {
    n.tag == ProgramTree && n.sym.None? && |n.kids| == 1 && IsBlock(n.kids[0])
  }

  /**
   * `n` is `base` with operator nodes of class `tag` stacked on its left:
   * each has two kids, the first being the rest of the stack.
   */
  predicate FoldsOnto(n: Node, base: Node, tag: Tag)
    decreases n
  {
    n == base || (n.tag == tag && |n.kids| == 2 && FoldsOnto(n.kids[0], base, tag))
  }

  /** Stacking is transitive: a stack onto `mid`, which is itself a stack onto `base`, is a stack onto `base`. */
  lemma {:induction false} FoldsOntoTrans(n: Node, mid: Node, base: Node, tag: Tag)
    requires FoldsOnto(n, mid, tag) && FoldsOnto(mid, base, tag)
    ensures FoldsOnto(n, base, tag)
    decreases n
  {
    if n != mid {
      FoldsOntoTrans(n.kids[0], mid, base, tag);
    }
  }

  // The shape of each node the parser assembles, from the shapes of its kids.

  lemma {:induction false} AllDeclsCons(d: Node, ds: seq<Node>)
    requires IsDecl(d) && AllDecls(ds)
    ensures AllDecls([d] + ds)
  {
    assert ([d] + ds)[1..] == ds;
  }

  lemma {:induction false} AllStatementsCons(s: Node, ss: seq<Node>)
    requires IsStatement(s) && AllStatements(ss)
    ensures AllStatements([s] + ss)
  {
    assert ([s] + ss)[1..] == ss;
  }

  lemma {:induction false} AllExprsCons(e: Node, es: seq<Node>)
    requires IsExpr(e) && AllExprs(es)
    ensures AllExprs([e] + es)
  {
    assert ([e] + es)[1..] == es;
  }

  lemma {:induction false} DeclShape(t: Node, id: Node)
    requires IsType(t) && IsId(id)
    ensures IsDecl(Node(DeclTree, None, [t, id]))
  {
  }

  lemma {:induction false} FunctionDeclShape(t: Node, id: Node, h: Node, b: Node)
    requires IsType(t) && IsId(id) && IsFormals(h) && IsBlock(b)
    ensures IsDecl(Node(FunctionDeclTree, None, [t, id, h, b]))
  {
  }

  lemma {:induction false} FormalsShape(ds: seq<Node>)
    requires AllDecls(ds)
    ensures IsFormals(Node(FormalsTree, None, ds))
  {
  }

  /** Declarations followed by statements form a block's kids. */
  lemma {:induction false} BlockShape(ds: seq<Node>, ss: seq<Node>)
    requires AllDecls(ds) && AllStatements(ss)
    ensures IsBlock(Node(BlockTree, None, ds + ss))
  {
    DeclsThenStatementsAppend(ds, ss);
  }

  lemma {:induction false} DeclsThenStatementsAppend(ds: seq<Node>, ss: seq<Node>)
    requires AllDecls(ds) && AllStatements(ss)
    ensures DeclsThenStatements(ds + ss)
    decreases |ds|
  {
    if |ds| == 0 {
      assert ds + ss == ss;
    } else {
      DeclsThenStatementsAppend(ds[1..], ss);
      assert (ds + ss)[1..] == ds[1..] + ss;
    }
  }

  lemma {:induction false} IfShape(c: Node, b: Node)
    requires IsExpr(c) && IsBlock(b)
    ensures IsStatement(Node(IfTree, None, [c, b]))
  {
  }

  lemma {:induction false} IfElseShape(c: Node, b: Node, e: Node)
    requires IsExpr(c) && IsBlock(b) && IsBlock(e)
    ensures IsStatement(Node(IfTree, None, [c, b, e]))
  {
  }

  lemma {:induction false} WhileShape(c: Node, b: Node)
    requires IsExpr(c) && IsBlock(b)
    ensures IsStatement(Node(WhileTree, None, [c, b]))
  {
  }

  lemma {:induction false} ForAllShape(d: Node, g: Node, b: Node)
    requires IsDecl(d) && IsRange(g) && IsBlock(b)
    ensures IsStatement(Node(ForAllTree, None, [d, g, b]))
  {
  }

  lemma {:induction false} ReturnShape(e: Node)
    requires IsExpr(e)
    ensures IsStatement(Node(ReturnTree, None, [e]))
  {
  }

  lemma {:induction false} AssignShape(id: Node, e: Node)
    requires IsId(id) && IsExpr(e)
    ensures IsStatement(Node(AssignTree, None, [id, e]))
  {
  }

  lemma {:induction false} BlockStatementShape(b: Node)
    requires IsBlock(b)
    ensures IsStatement(b)
  {
  }

  lemma {:induction false} BinaryShape(tag: Tag, op: Symbol, a: Node, b: Node)
    requires || (tag == RelOpTree && op.kind in RelationalOps)
             || (tag == AddOpTree && op.kind in AddingOps)
             || (tag == MultOpTree && op.kind in MultiplyingOps)
    requires IsExpr(a) && IsExpr(b)
    ensures IsExpr(Node(tag, Some(op), [a, b]))
  {
  }

  lemma {:induction false} CallShape(id: Node, args: seq<Node>)
    requires IsId(id) && AllExprs(args)
    ensures IsExpr(Node(CallTree, None, [id] + args))
  {
    assert ([id] + args)[1..] == args;
  }
}
