/**
 * The lexer: a state machine carrying one character of lookahead `ch`, the
 * source reader, the end-of-input flag and the symbol table. `NextToken`
 * skips whitespace and classifies the next run of characters as a string
 * literal, an identifier or reserved word, a number, or one- or
 * two-character punctuation; `//` comments are dropped.
 *
 * Every call of `errorHandling` in the Java lexer is terminal: it closes and
 * forgets the reader, after which the method dereferences the forgotten
 * reader and the exception escapes. Each such call is the `LexError`
 * outcome here, carrying the character, line and column it reports.
 */
module Lexer {
  import opened Common
  import opened Symbols
  import opened Tokens
  import SR = SourceReader

  /** Java's `Character.isWhitespace`, restricted to ASCII. */
  predicate IsWhitespace(c: char) {
    c == ' ' || (9 <= c as int <= 13) || (28 <= c as int <= 31)
  }

  /** Java's `Character.isDigit`, restricted to ASCII. */
  predicate IsDigit(c: char) {
    '0' <= c <= '9'
  }

  /** Java's `Character.isJavaIdentifierStart`, restricted to ASCII. */
  predicate IsIdentStart(c: char) {
    ('a' <= c <= 'z') || ('A' <= c <= 'Z') || c == '_' || c == '$'
  }

  /** Java's `Character.isJavaIdentifierPart`, restricted to ASCII (ignorable controls included). */
  predicate IsIdentPart(c: char) {
    IsIdentStart(c) || IsDigit(c)
    || (0 <= c as int <= 8) || (14 <= c as int <= 27) || c as int == 127
  }

  /** `Character.toLowerCase(c) == 'e'`, restricted to ASCII. */
  predicate IsExponentMarker(c: char) {
    c == 'e' || c == 'E'
  }

  /** Lexer state: end-of-input flag, lookahead, reader (None once released), symbol table. */
  datatype Lexer = Lexer(atEOF: bool, ch: char, src: Option<SR.Reader>, table: Table)

  /** Outcome of one `nextToken`: a token, the end of the stream (null), or a lexical error. */
  datatype Step =
    | Emit(tok: Token, next: Lexer)
    | End(next: Lexer)
    | LexError(ch: char, line: int, col: int)

  ghost predicate Valid(s: Lexer) {
    && (!s.atEOF ==> s.src.Some?)
    && (s.src.Some? ==> SR.Valid(s.src.value))
    && TableOk(s.table)
  }

  /** Reads the reader still has in it. */
  function Rank(s: Lexer): nat
    requires Valid(s)
  {
    if s.src.Some? then SR.Remaining(s.src.value) else 0
  }

  /** Decreases with every token: fewer reads left, or the end flag newly set. */
  function Measure(s: Lexer): nat
    requires Valid(s)
  {
    2 * Rank(s) + (if s.atEOF then 0 else 1)
  }

  /** `errorHandling`: reports the lookahead and the reader's current line and column. */
  function Fault(ch: char, r: SR.Reader): Step {
    LexError(ch, r.lineNumber, r.position)
  }

  /** The constructor: reads the first character; an empty input throws. */
  function Start(lines: seq<string>): (s: Option<Lexer>)
    ensures s.Some? <==> lines != []
    ensures s.Some? ==>
              && Valid(s.value) && !s.value.atEOF && s.value.table == Reserved
              && SR.Drain(s.value.src.value) == SR.Drain(SR.Open(lines))[1..]
  {
    ReservedTableOk();
    match SR.Read(SR.Open(lines))
    case Failed(_) => None
    case Got(c, r) => Some(Lexer(false, c, Some(r), Reserved))
  }

  /** Lookahead plus reader after a scanning loop; `Exhausted` when a read failed. */
  datatype Scan = Ready(ch: char, rd: SR.Reader) | Exhausted(ch: char, rd: SR.Reader)

  /** The whitespace loop: read while the lookahead is whitespace. */
  function SkipWhitespace(ch: char, r: SR.Reader): (sc: Scan)
    requires SR.Valid(r)
    ensures SR.Valid(sc.rd) && SR.Remaining(sc.rd) <= SR.Remaining(r)
    ensures sc.Ready? ==> !IsWhitespace(sc.ch)
    ensures sc.Exhausted? ==> SR.Remaining(sc.rd) == 0
    decreases SR.Remaining(r)
  {
    if !IsWhitespace(ch) then Ready(ch, r)
    else
      match SR.Read(r)
      case Failed(r') => Exhausted(ch, r')
      case Got(c, r') => SkipWhitespace(c, r')
  }

  /** The comment loop: read until the reader reports a line other than `oldLine`. */
  function SkipComment(ch: char, r: SR.Reader, oldLine: int): (sc: Scan)
    requires SR.Valid(r)
    ensures SR.Valid(sc.rd)
    ensures sc.Ready? ==> SR.Remaining(sc.rd) < SR.Remaining(r) && sc.rd.lineNumber != oldLine
    ensures sc.Exhausted? ==> SR.Remaining(sc.rd) == 0
    decreases SR.Remaining(r)
  {
    match SR.Read(r)
    case Failed(r') => Exhausted(ch, r')
    case Got(c, r') =>
      if r'.lineNumber == oldLine then SkipComment(c, r', oldLine) else Ready(c, r')
  }

  /** Text accumulated by a `do { append ch; ch = read } while more(ch)` loop. */
  datatype Run = Run(text: string, ch: char, rd: SR.Reader, end: int, failed: bool)

  /**
   * The accumulate-then-read loop shared by identifiers and digit runs: the
   * lookahead is appended, the next character read, and the loop goes on
   * while `more` holds of it. `failed` records a read that threw; the
   * lookahead is then left as it was.
   */
  function Accumulate(acc: string, ch: char, r: SR.Reader, end: int, more: char -> bool): (run: Run)
    requires SR.Valid(r)
    ensures SR.Valid(run.rd) && SR.Remaining(run.rd) <= SR.Remaining(r)
    ensures !run.failed ==> SR.Remaining(run.rd) < SR.Remaining(r) && !more(run.ch)
    ensures run.failed ==> SR.Remaining(run.rd) == 0
    ensures |run.text| > |acc| && run.text[..|acc| + 1] == acc + [ch]
    ensures run.end == end + |run.text| - |acc|
    decreases SR.Remaining(r)
  {
    var acc' := acc + [ch];
    match SR.Read(r)
    case Failed(r') => Run(acc', ch, r', end + 1, true)
    case Got(c, r') =>
      if more(c) then
        var run := Accumulate(acc', c, r', end + 1, more);
        assert run.text[..|acc'|] == acc' by {
          assert run.text[..|acc'| + 1][..|acc'|] == run.text[..|acc'|];
        }
        run
      else Run(acc', c, r', end + 1, false)
  }

  /** Body of a string literal, or the error raised inside it. */
  datatype Body = Body(text: string, ch: char, rd: SR.Reader, end: int) | BodyFault(ch: char, line: int, col: int)

  /**
   * The string-literal loop: stop before a character read on a line other
   * than `line0`; otherwise append the lookahead, read, and stop when the
   * character read is a quote. A read that throws is an error.
   */
  function StringBody(acc: string, ch: char, r: SR.Reader, line0: int, temp: int, end: int): (b: Body)
    requires SR.Valid(r)
    ensures b.Body? ==> SR.Valid(b.rd) && SR.Remaining(b.rd) <= SR.Remaining(r)
    ensures b.Body? ==> b.end >= end && |b.text| >= |acc|
    decreases SR.Remaining(r)
  {
    if temp != line0 then Body(acc, ch, r, end)
    else
      match SR.Read(r)
      case Failed(r') => BodyFault(ch, r'.lineNumber, r'.position)
      case Got(c, r') =>
        if c == '"' then Body(acc + [ch], c, r', end + 1)
        else StringBody(acc + [ch], c, r', line0, r'.lineNumber, end + 1)
  }

  /** Facts every emitted token and successor state satisfy, relative to a bound on the measure. */
  ghost predicate Emitted(t: Table, st: Step, bound: int)
  {
    st.Emit? ==>
      && Valid(st.next)
      && Measure(st.next) < bound
      && Extends(t, st.next.table)
      && st.tok.symbol.kind != BogusToken
      && st.tok.left <= st.tok.right
  }

  /** A string literal; `r` has just delivered the opening quote at column `start`. */
  function LexString(t: Table, r: SR.Reader, start: int): (st: Step)
    requires SR.Valid(r) && TableOk(t)
    ensures Emitted(t, st, 2 * SR.Remaining(r) + 1) && !st.End?
  {
    var line0 := r.lineNumber;
    match SR.Read(r)
    case Failed(r1) => Fault('"', r1)
    case Got(c0, r1) =>
      match StringBody([], c0, r1, line0, line0, start)
      case BodyFault(c, l, p) => LexError(c, l, p)
      case Body(text, ch, r2, end) => StringEnd(t, text, ch, r2, start, end)
  }

  /**
   * After the string loop: intern the text and read past the character the
   * loop stopped on (the closing quote, or the first character of the next
   * line), which a failing read leaves as the lookahead.
   */
  function StringEnd(t: Table, text: string, ch: char, r: SR.Reader, start: int, end: int): (st: Step)
    requires SR.Valid(r) && TableOk(t) && start <= end
    ensures Emitted(t, st, 2 * SR.Remaining(r) + 2) && st.Emit?
  {
    var i := Intern(t, text, StringLit);
    match SR.Read(r)
    case Got(c, r') =>
      Emit(Token(start, end + 1, i.sym.value, r'.lineNumber), Lexer(false, c, Some(r'), i.table))
    case Failed(r') =>
      Emit(Token(start, end + 1, i.sym.value, r'.lineNumber), Lexer(false, ch, Some(r'), i.table))
  }

  /** The kind an identifier-shaped lexeme is interned with. */
  function IdDefaultKind(id: string): Kind {
    if id == "in" then In else if id == "forall" then Forall else Identifier
  }

  /** An identifier or reserved word starting with `c` at column `start`. */
  function LexIdent(t: Table, c: char, r: SR.Reader, start: int): (st: Step)
    requires SR.Valid(r) && TableOk(t)
    ensures Emitted(t, st, 2 * SR.Remaining(r) + 1) && st.Emit?
  {
    var run := Accumulate([], c, r, start - 1, IsIdentPart);
    var i := Intern(t, run.text, IdDefaultKind(run.text));
    Emit(Token(start, run.end, i.sym.value, run.rd.lineNumber),
         Lexer(run.failed, run.ch, Some(run.rd), i.table))
  }

  /** A number starting with digit `c` at column `start`. */
  function LexNumber(t: Table, c: char, r: SR.Reader, start: int): (st: Step)
    requires SR.Valid(r) && TableOk(t)
    ensures Emitted(t, st, 2 * SR.Remaining(r) + 1) && !st.End?
  {
    var eof := SR.Read(r).Failed?;
    var r1 := SR.Read(r).next;
    var ch1 := if eof then c else SR.Read(r).c;
    if IsDigit(ch1) then
      // a second digit: the loop ends on a non-digit (or a failed read), and
      // both the check after the loop and the catch call errorHandling
      var run := Accumulate([c], ch1, r1, start, IsDigit);
      Fault(run.ch, run.rd)
    else if ch1 == '.' then
      LexScientific(t, c, r1, start)
    else
      var i := Intern(t, [c], INTeger);
      Emit(Token(start, start, i.sym.value, r1.lineNumber), Lexer(eof, ch1, Some(r1), i.table))
  }

  /**
   * The fraction of a scientific literal: `r` has just delivered the `.`
   * after digit `c`. The first fraction character is taken whatever it is; a
   * digit after it is the second; a third digit is an error.
   */
  function LexScientific(t: Table, c: char, r: SR.Reader, start: int): (st: Step)
    requires SR.Valid(r) && TableOk(t)
    ensures Emitted(t, st, 2 * SR.Remaining(r) + 1) && !st.End?
  {
    match SR.Read(r)
    case Failed(r') => Fault('.', r')
    case Got(f1, r2) =>
      match SR.Read(r2)
      case Failed(r') => Fault(f1, r')
      case Got(x, r3) =>
        if !IsDigit(x) then Exponent(t, [c, '.', f1], x, r3, start, start + 2)
        else
          match SR.Read(r3)
          case Failed(r') => Fault(x, r')
          case Got(y, r4) =>
            if IsDigit(y) then Fault(y, r4)
            else Exponent(t, [c, '.', f1, x], y, r4, start, start + 3)
  }

  /** The exponent: marker `e`/`E`, a sign, then one or more digits. */
  function Exponent(t: Table, num: string, ch: char, r: SR.Reader, start: int, end: int): (st: Step)
    requires SR.Valid(r) && TableOk(t) && start <= end
    ensures Emitted(t, st, 2 * SR.Remaining(r) + 1) && !st.End?
  {
    if !IsExponentMarker(ch) then Fault(ch, r)
    else
      match SR.Read(r)
      case Failed(r') => Fault(ch, r')
      case Got(sign, r5) =>
        if sign != '+' && sign != '-' then Fault(sign, r5)
        else
          match SR.Read(r5)
          case Failed(r') => Fault(sign, r')
          case Got(d, r6) =>
            if !IsDigit(d) then Fault(d, r6)
            else
              var run := Accumulate(num + [ch, sign], d, r6, end + 2, IsDigit);
              if run.failed then Fault(run.ch, run.rd)
              else
                var i := Intern(t, run.text, ScientificLit);
                Emit(Token(start, run.end, i.sym.value, run.rd.lineNumber),
                     Lexer(false, run.ch, Some(run.rd), i.table))
  }

  /** What the punctuation branch hands to `makeToken`: state, spelling, last column. */
  datatype Candidate = Candidate(state: Lexer, text: string, end: int)

  /**
   * Maximal munch: read one more character; when the two-character spelling
   * is registered, consume both, otherwise keep the second as lookahead and
   * take only the first. A read that throws sets the end flag.
   */
  function Operator(t: Table, c: char, r: SR.Reader, start: int): (cand: Candidate)
    requires SR.Valid(r) && TableOk(t)
    ensures Valid(cand.state) && cand.state.src.Some? && cand.state.table == t
    ensures Measure(cand.state) < 2 * SR.Remaining(r) + 1
    ensures cand.end == start + |cand.text| - 1 && 1 <= |cand.text| <= 2 && cand.text[0] == c
  {
    match SR.Read(r)
    case Failed(r1) => Candidate(Lexer(true, c, Some(r1), t), [c], start)
    case Got(c2, r1) =>
      if Intern(t, [c, c2], BogusToken).sym.None? then
        Candidate(Lexer(false, c2, Some(r1), t), [c], start)
      else
        match SR.Read(r1)
        case Failed(r2) => Candidate(Lexer(true, c2, Some(r2), t), [c, c2], start + 1)
        case Got(c3, r2) => Candidate(Lexer(false, c3, Some(r2), t), [c, c2], start + 1)
  }

  /** `nextToken`. */
  function NextToken(s: Lexer): (st: Step)
    requires Valid(s)
    ensures Emitted(s.table, st, Measure(s))
    ensures st.End? ==> Valid(st.next) && st.next.atEOF && st.next.src.None?
    decreases Measure(s), 1
  {
    if s.atEOF then End(s.(src := None))
    else
      match SkipWhitespace(s.ch, s.src.value)
      case Exhausted(c, r) => NextToken(s.(atEOF := true, ch := c, src := Some(r)))
      case Ready(c, r) => Classify(s.(ch := c, src := Some(r)))
  }

  /**
   * The lookahead is not blank: it selects a string literal, an identifier
   * or reserved word, a number, or punctuation, starting at the reader's
   * current column.
   */
  function Classify(s: Lexer): (st: Step)
    requires Valid(s) && !s.atEOF && !IsWhitespace(s.ch)
    ensures Emitted(s.table, st, Measure(s))
    ensures st.End? ==> Valid(st.next) && st.next.atEOF && st.next.src.None?
    decreases Measure(s), 0
  {
    var r := s.src.value;
    var start := r.position;
    if s.ch == '"' then LexString(s.table, r, start)
    else if IsIdentStart(s.ch) then LexIdent(s.table, s.ch, r, start)
    else if IsDigit(s.ch) then LexNumber(s.table, s.ch, r, start)
    else
      var cand := Operator(s.table, s.ch, r, start);
      MakeToken(cand.state, cand.text, start, cand.end)
  }

  /**
   * `makeToken`: `//` drops the rest of the line and scans on; any other
   * spelling must already be registered, else it is a lexical error.
   */
  function MakeToken(s: Lexer, text: string, start: int, end: int): (st: Step)
    requires Valid(s) && s.src.Some? && start <= end
    ensures Emitted(s.table, st, Measure(s) + 1)
    ensures st.End? ==> Valid(st.next) && st.next.atEOF && st.next.src.None?
    decreases Measure(s), 2
  {
    if text == "//" then
      var r := s.src.value;
      match SkipComment(s.ch, r, r.lineNumber)
      case Exhausted(c, r') => NextToken(s.(atEOF := true, ch := c, src := Some(r')))
      case Ready(c, r') => NextToken(s.(ch := c, src := Some(r')))
    else
      var i := Intern(s.table, text, BogusToken);
      if i.sym.None? then Fault(s.ch, s.src.value)
      else Emit(Token(start, end, i.sym.value, s.src.value.lineNumber), s)
  }

  /** How a token stream ends: the reader ran out, or a lexical error aborted it. */
  datatype Ending = Finished | Aborted(ch: char, line: int, col: int)

  datatype TokenRun = TokenRun(tokens: seq<Token>, ending: Ending)

  /** Call `nextToken` until it returns null or fails. */
  function Tokenize(s: Lexer): (run: TokenRun)
    requires Valid(s)
    ensures forall i :: 0 <= i < |run.tokens| ==>
              run.tokens[i].left <= run.tokens[i].right && run.tokens[i].symbol.kind != BogusToken
    decreases Measure(s)
  {
    match NextToken(s)
    case End(_) => TokenRun([], Finished)
    case LexError(c, l, p) => TokenRun([], Aborted(c, l, p))
    case Emit(tok, s') =>
      var rest := Tokenize(s');
      TokenRun([tok] + rest.tokens, rest.ending)
  }

  /** All tokens of a source text given as lines; None when the input is empty. */
  function Lex(lines: seq<string>): (o: Option<TokenRun>)
    ensures o.Some? <==> lines != []
    ensures o.Some? ==> forall i :: 0 <= i < |o.value.tokens| ==>
              o.value.tokens[i].left <= o.value.tokens[i].right && o.value.tokens[i].symbol.kind != BogusToken
  {
    match Start(lines)
    case None => None
    case Some(s) => Some(Tokenize(s))
  }
}
