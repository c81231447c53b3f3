/**
 * The symbol table: token kinds, interned symbols, and the `intern`
 * operation the lexer uses both to register identifiers and literals and to
 * probe whether a two-character spelling is a known operator.
 *
 * The Java `Symbol` and `TokenType` classes are not part of this model; the
 * table is an explicit map from spelling to kind, threaded through the lexer
 * as part of its state.
 */
module Symbols {
  import opened Common

  /** Token kinds used by the lexer and the parser. */
  datatype Kind =
    | Program | If | Then | Else | While | Function | Return | Forall | In
    | LeftBrace | RightBrace | LeftParen | RightParen | LeftBracket | RightBracket
    | Comma | Range
    | Assign | Plus | Minus | Or | And | Multiply | Divide
    | Equal | NotEqual | Less | LessEqual | Greater | GreaterEqual
    | Int | BOOLean | StringType | Scientific
    | Identifier | INTeger | StringLit | ScientificLit
    | Comment
    | BogusToken  // sentinel default kind: probe without registering

  /** An interned spelling together with its kind. */
  datatype Symbol = Symbol(text: string, kind: Kind)

  /** The symbol table: every registered spelling and its kind. */
  type Table = map<string, Kind>

  const RelationalOps: set<Kind> := {Equal, NotEqual, Less, LessEqual, Greater, GreaterEqual}
  const AddingOps: set<Kind> := {Plus, Minus, Or}
  const MultiplyingOps: set<Kind> := {Multiply, Divide, And}
  const TypeKinds: set<Kind> := {Int, BOOLean, StringType, Scientific}

  /** Reserved words, separators and operators registered before lexing starts. */
  const Reserved: Table := map[
    "program" := Program, "if" := If, "then" := Then, "else" := Else,
    "while" := While, "function" := Function, "return" := Return,
    "forall" := Forall, "in" := In,
    "{" := LeftBrace, "}" := RightBrace, "(" := LeftParen, ")" := RightParen,
    "[" := LeftBracket, "]" := RightBracket, "," := Comma, ".." := Range,
    "=" := Assign, "+" := Plus, "-" := Minus, "|" := Or, "&" := And,
    "*" := Multiply, "/" := Divide,
    "==" := Equal, "!=" := NotEqual, "<" := Less, "<=" := LessEqual,
    ">" := Greater, ">=" := GreaterEqual,
    "int" := Int, "boolean" := BOOLean, "string" := StringType, "scientific" := Scientific,
    "//" := Comment
  ]

  /** No entry is ever registered under the probing sentinel. */
  ghost predicate TableOk(t: Table) {
    forall s :: s in t ==> t[s] != BogusToken
  }

  /** `t2` keeps every entry of `t1` unchanged. */
  ghost predicate Extends(t1: Table, t2: Table) {
    forall s :: s in t1 ==> s in t2 && t2[s] == t1[s]
  }

  /** Result of interning: the symbol (None for a failed probe) and the new table. */
  datatype Interned = Interned(sym: Option<Symbol>, table: Table)

  /**
   * Intern `text`: a registered spelling yields its registered kind whatever
   * `default` says; an unregistered spelling probed with `BogusToken` yields
   * None and leaves the table alone; otherwise the spelling is registered
   * under `default`.
   */
  function Intern(t: Table, text: string, default: Kind): (r: Interned)
    ensures r.sym.None? <==> text !in t && default == BogusToken
    ensures r.sym.Some? ==>
              r.sym.value.text == text && text in r.table && r.sym.value.kind == r.table[text]
    ensures text in t ==> r.sym == Some(Symbol(text, t[text]))
    ensures text !in t && default != BogusToken ==> r.sym.value.kind == default
    ensures Extends(t, r.table) && r.table.Keys <= t.Keys + {text}
    ensures TableOk(t) ==> TableOk(r.table)
  {
    if text in t then Interned(Some(Symbol(text, t[text])), t)
    else if default == BogusToken then Interned(None, t)
    else Interned(Some(Symbol(text, default)), t[text := default])
  }

  /** Interning is idempotent: a second intern of the same spelling finds the first entry. */
  lemma {:induction false} InternIdempotent(t: Table, text: string, d1: Kind, d2: Kind)
    requires Intern(t, text, d1).sym.Some?
    ensures var r := Intern(t, text, d1);
      Intern(r.table, text, d2) == Interned(r.sym, r.table)
  {
  }

  lemma {:induction false} ReservedTableOk()
    ensures TableOk(Reserved)
  {
  }
}
