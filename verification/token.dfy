/**
 * A token: the interned symbol of a lexeme, the first and last column it
 * occupies, and the line it was reported on. Being a datatype value it is
 * immutable; its accessors are the datatype's destructors.
 */
module Tokens {
  import opened Symbols

  datatype Token = Token(left: int, right: int, symbol: Symbol, line: int) {

    /** `getKind`: the kind of the token's symbol. */
    function KindOf(): Kind {
      symbol.kind
    }

    /** `toString`: the symbol's spelling. */
    function Text(): string {
      symbol.text
    }
  }
}
