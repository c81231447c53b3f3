/**
 * Syntax trees. Every node class of the front end (`ProgramTree`,
 * `ScientificTree`, `MultOpTree`, ...) becomes a `Tag`; a node is its tag,
 * the symbol of the token it was built from (for the classes that keep
 * one), and its kids in the order `addKid` appended them.
 */
module Ast {
  import opened Common
  import opened Symbols
  import opened Tokens

  datatype Tag =
    | ProgramTree | BlockTree | FunctionDeclTree | CallTree | DeclTree
    | IntTypeTree | BoolTypeTree | StringTypeTree | ScientificTypeTree
    | FormalsTree | ActualArgsTree
    | IfTree | WhileTree | ForAllTree | ReturnTree | AssignTree
    | IntTree | IdTree | StringTree | ScientificTree
    | RelOpTree | AddOpTree | MultOpTree | RangeExpTree

  datatype Node = Node(tag: Tag, sym: Option<Symbol>, kids: seq<Node>)

  /** The classes whose constructor takes a token and keeps its symbol. */
  const SymbolTags: set<Tag> :=
    {IntTree, IdTree, StringTree, ScientificTree, RelOpTree, AddOpTree, MultOpTree}

  /** A node built by a token constructor such as `new ScientificTree(token)` or `new MultOpTree(token)`. */
  function FromToken(tag: Tag, tok: Token): (n: Node)
    requires tag in SymbolTags
    ensures GetSymbol(n) == Some(tok.symbol) && n.kids == [] && n.tag == tag
  {
    Node(tag, Some(tok.symbol), [])
  }

  /** A node built by a no-argument constructor such as `new ForAllTree()`. */
  function Fresh(tag: Tag): (n: Node)
    requires tag !in SymbolTags
    ensures GetSymbol(n).None? && n.kids == [] && n.tag == tag
  {
    Node(tag, None, [])
  }

  /** `getSymbol`. */
  function GetSymbol(n: Node): Option<Symbol> {
    n.sym
  }

  /** `addKid`: appends `k` as the last kid and returns the node itself. */
  function AddKid(n: Node, k: Node): (m: Node)
    ensures m.tag == n.tag && m.sym == n.sym
    ensures |m.kids| == |n.kids| + 1 && m.kids[..|n.kids|] == n.kids && m.kids[|n.kids|] == k
  {
    n.(kids := n.kids + [k])
  }

  /** A node of class `tag` built with the given kids, in order. */
  function Build(tag: Tag, sym: Option<Symbol>, kids: seq<Node>): (n: Node)
    ensures n == Node(tag, sym, kids)
    decreases |kids|
  {
    if |kids| == 0 then Node(tag, sym, [])
    else AddKid(Build(tag, sym, kids[..|kids| - 1]), kids[|kids| - 1])
  }

  /** The methods of `ASTVisitor`, one per node class. */
  datatype VisitMethod =
    | VisitProgramTree | VisitBlockTree | VisitFunctionDeclTree | VisitCallTree | VisitDeclTree
    | VisitIntTypeTree | VisitBoolTypeTree | VisitStringTypeTree | VisitScientificTypeTree
    | VisitFormalsTree | VisitActualArgsTree
    | VisitIfTree | VisitWhileTree | VisitForAllTree | VisitReturnTree | VisitAssignTree
    | VisitIntTree | VisitIdTree | VisitStringTree | VisitScientificTree
    | VisitRelOpTree | VisitAddOpTree | VisitMultOpTree | VisitRangeExpTree

  /** The visitor method each class's `accept` calls. */
  function Dispatch(t: Tag): VisitMethod {
    match t
    case ProgramTree => VisitProgramTree
    case BlockTree => VisitBlockTree
    case FunctionDeclTree => VisitFunctionDeclTree
    case CallTree => VisitCallTree
    case DeclTree => VisitDeclTree
    case IntTypeTree => VisitIntTypeTree
    case BoolTypeTree => VisitBoolTypeTree
    case StringTypeTree => VisitStringTypeTree
    case ScientificTypeTree => VisitScientificTypeTree
    case FormalsTree => VisitFormalsTree
    case ActualArgsTree => VisitActualArgsTree
    case IfTree => VisitIfTree
    case WhileTree => VisitWhileTree
    case ForAllTree => VisitForAllTree
    case ReturnTree => VisitReturnTree
    case AssignTree => VisitAssignTree
    case IntTree => VisitIntTree
    case IdTree => VisitIdTree
    case StringTree => VisitStringTree
    case ScientificTree => VisitScientificTree
    case RelOpTree => VisitRelOpTree
    case AddOpTree => VisitAddOpTree
    case MultOpTree => VisitMultOpTree
    case RangeExpTree => VisitRangeExpTree
  }

  /** The class a visitor method is named after. */
  function VisitedClass(m: VisitMethod): Tag {
    match m
    case VisitProgramTree => ProgramTree
    case VisitBlockTree => BlockTree
    case VisitFunctionDeclTree => FunctionDeclTree
    case VisitCallTree => CallTree
    case VisitDeclTree => DeclTree
    case VisitIntTypeTree => IntTypeTree
    case VisitBoolTypeTree => BoolTypeTree
    case VisitStringTypeTree => StringTypeTree
    case VisitScientificTypeTree => ScientificTypeTree
    case VisitFormalsTree => FormalsTree
    case VisitActualArgsTree => ActualArgsTree
    case VisitIfTree => IfTree
    case VisitWhileTree => WhileTree
    case VisitForAllTree => ForAllTree
    case VisitReturnTree => ReturnTree
    case VisitAssignTree => AssignTree
    case VisitIntTree => IntTree
    case VisitIdTree => IdTree
    case VisitStringTree => StringTree
    case VisitScientificTree => ScientificTree
    case VisitRelOpTree => RelOpTree
    case VisitAddOpTree => AddOpTree
    case VisitMultOpTree => MultOpTree
    case VisitRangeExpTree => RangeExpTree
  }

  /**
   * `accept`: a visitor is a function from the method called and the node
   * to the method's result; `accept` calls the method named after the
   * node's own class, once, and returns what it returns.
   */
  function Accept<R>(n: Node, visit: (VisitMethod, Node) -> R): (r: R)
    ensures exists m :: VisitedClass(m) == n.tag && r == visit(m, n)
  {
    AcceptDispatch(n.tag);
    visit(Dispatch(n.tag), n)
  }

  /** Each class dispatches to the method named after it, and to no other. */
  lemma {:induction false} AcceptDispatch(t: Tag)
    ensures VisitedClass(Dispatch(t)) == t
    ensures forall m :: VisitedClass(m) == t ==> m == Dispatch(t)
  {
    forall m | VisitedClass(m) == t
      ensures m == Dispatch(t)
    {
      match m
      case _ =>
    }
  }

  /** The classes of a tree's nodes in preorder (node, then each kid's subtree in order). */
  function Preorder(n: Node): (p: seq<Tag>)
    ensures |p| > 0 && p[0] == n.tag
    decreases n, 1
  {
    [n.tag] + PreorderAll(n.kids)
  }

  function PreorderAll(ks: seq<Node>): (p: seq<Tag>)
    decreases ks, 0
  {
    if |ks| == 0 then [] else Preorder(ks[0]) + PreorderAll(ks[1..])
  }
}
