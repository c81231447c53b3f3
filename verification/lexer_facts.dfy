/**
 * Properties of the lexer, stated against the characters the reader still
 * holds (`SR.Drain`): what `NextToken` returns for each kind of lookahead,
 * and the two places where the number scanner rejects literals the language
 * description allows.
 */
module LexerFacts {
  import opened Common
  import opened Symbols
  import opened Tokens
  import opened Lexer
  import SR = SourceReader

  /** The characters of a run of cells. */
  function Chars(cs: seq<SR.Cell>): (w: string)
    ensures |w| == |cs|
  {
    if |cs| == 0 then [] else [cs[0].c] + Chars(cs[1..])
  }

  /** Length of the longest prefix of `cs` whose characters satisfy `p`. */
  function Span(cs: seq<SR.Cell>, p: char -> bool): (k: nat)
    ensures k <= |cs|
    ensures k < |cs| ==> !p(cs[k].c)
  {
    if |cs| == 0 || !p(cs[0].c) then 0 else 1 + Span(cs[1..], p)
  }

  /** The reader after `n` successful reads. */
  function ReadN(r: SR.Reader, n: nat): (r': SR.Reader)
    requires SR.Valid(r) && n <= SR.Remaining(r)
    ensures SR.Valid(r') && SR.Remaining(r') == SR.Remaining(r) - n
    decreases n
  {
    if n == 0 then r else ReadN(SR.Read(r).next, n - 1)
  }

  /** After `n` reads the reader holds the rest of the cells and reports the `n`-th one. */
  lemma {:induction false} DrainReadN(r: SR.Reader, n: nat)
    requires SR.Valid(r) && n <= SR.Remaining(r)
    ensures SR.Drain(ReadN(r, n)) == SR.Drain(r)[n..]
    ensures n > 0 ==>
      && ReadN(r, n).lineNumber == SR.Drain(r)[n - 1].line
      && ReadN(r, n).position == SR.Drain(r)[n - 1].col
    decreases n
  {
    if n > 0 {
      var r' := SR.Read(r).next;
      DrainReadN(r', n - 1);
      DrainCons(r);
      ReadNFirst(r, n - 1);
      DropCons(SR.Drain(r), SR.Drain(r'), n);
    }
  }

  /** Dropping `n` elements of a sequence with one element in front drops `n - 1` of the rest. */
  lemma {:induction false} DropCons(cs: seq<SR.Cell>, cs': seq<SR.Cell>, n: nat)
    requires 0 < n <= |cs| && cs[1..] == cs'
    ensures cs[n..] == cs'[n - 1..]
    ensures n > 1 ==> cs[n - 1] == cs'[n - 2]
  {
  }

  /** The `n`-th read returns the `n`-th cell, or fails when none is left. */
  lemma {:induction false} ReadAt(r: SR.Reader, n: nat)
    requires SR.Valid(r) && n <= SR.Remaining(r)
    ensures var cs := SR.Drain(r);
      if n < |cs| then SR.Read(ReadN(r, n)) == SR.Got(cs[n].c, ReadN(r, n + 1))
      else SR.Read(ReadN(r, n)).Failed?
  {
    DrainReadN(r, n);
    if n < SR.Remaining(r) {
      DrainReadN(r, n + 1);
      ReadNSucc(r, n);
    }
  }

  lemma {:induction false} ReadNSucc(r: SR.Reader, n: nat)
    requires SR.Valid(r) && n < SR.Remaining(r)
    ensures ReadN(r, n + 1) == SR.Read(ReadN(r, n)).next
    decreases n
  {
    if n > 0 {
      ReadNSucc(SR.Read(r).next, n - 1);
    }
  }

  /**
   * What the accumulating loop returns on a reader holding `cs`: the
   * lookahead and then the longest run of following characters satisfying
   * `more` appended to `acc`; the first character that does not becomes the
   * lookahead, and a run reaching the end of input fails the last read.
   */
  ghost predicate RunResult(acc: string, ch: char, r: SR.Reader, cs: seq<SR.Cell>, end: int, more: char -> bool, run: Run)
    requires SR.Valid(r) && |cs| == SR.Remaining(r)
  {
    var k := Span(cs, more);
    && run.text == acc + [ch] + Chars(cs[..k])
    && run.end == end + k + 1
    && run.failed == (k == |cs|)
    && (k < |cs| ==> run.ch == cs[k].c && run.rd == ReadN(r, k + 1))
    && (k == |cs| ==> SR.Valid(run.rd) && SR.Remaining(run.rd) == 0)
  }

  /** The accumulating loop collects the longest run satisfying `more`. */
  lemma {:induction false} AccumulateSpec(acc: string, ch: char, r: SR.Reader, end: int, more: char -> bool)
    requires SR.Valid(r)
    ensures RunResult(acc, ch, r, SR.Drain(r), end, more, Accumulate(acc, ch, r, end, more))
    decreases SR.Remaining(r), 1
  {
    match SR.Read(r)
    case Failed(r') =>
      assert SR.Drain(r) == [];
    case Got(c, r') =>
      DrainCons(r);
      if more(c) {
        AccumulateStep(acc, ch, r, end, more);
      } else {
        var cs := SR.Drain(r);
        assert Span(cs, more) == 0;
        assert cs[..0] == [];
        assert ReadN(r, 1) == r';
      }
  }

  lemma {:induction false} AccumulateStep(acc: string, ch: char, r: SR.Reader, end: int, more: char -> bool)
    requires SR.Valid(r) && SR.Read(r).Got? && more(SR.Read(r).c)
    ensures RunResult(acc, ch, r, SR.Drain(r), end, more, Accumulate(acc, ch, r, end, more))
    decreases SR.Remaining(r), 0
  {
    var c := SR.Read(r).c;
    var r' := SR.Read(r).next;
    DrainCons(r);
    AccumulateSpec(acc + [ch], c, r', end + 1, more);
    RunResultCons(acc, ch, r, SR.Drain(r), SR.Drain(r'), end, more, Accumulate(acc, ch, r, end, more));
  }

  /** One more cell satisfying `more` in front of a loop result. */
  lemma {:induction false} RunResultCons(acc: string, ch: char, r: SR.Reader, cs: seq<SR.Cell>, cs': seq<SR.Cell>, end: int,
                      more: char -> bool, run: Run)
    requires SR.Valid(r) && SR.Read(r).Got? && |cs| == SR.Remaining(r) && more(SR.Read(r).c)
    requires cs == [SR.Cell(SR.Read(r).c, SR.Read(r).next.lineNumber, SR.Read(r).next.position)] + cs'
    requires RunResult(acc + [ch], SR.Read(r).c, SR.Read(r).next, cs', end + 1, more, run)
    ensures RunResult(acc, ch, r, cs, end, more, run)
  {
    var k' := Span(cs', more);
    assert cs[1..] == cs';
    assert Span(cs, more) == k' + 1;
    CharsCons(cs, k');
    assert acc + [ch] + ([cs[0].c] + Chars(cs'[..k'])) == acc + [ch] + [cs[0].c] + Chars(cs'[..k']);
    if k' < |cs'| {
      ReadNFirst(r, k' + 1);
    }
  }

  /** The first `k` cells all satisfy `p`. */
  lemma {:induction false} SpanAll(cs: seq<SR.Cell>, p: char -> bool, i: nat)
    requires i < Span(cs, p)
    ensures p(cs[i].c)
    decreases i
  {
    if i > 0 {
      SpanAll(cs[1..], p, i - 1);
    }
  }

  /** Characters of a concatenation. */
  lemma {:induction false} CharsAppend(a: seq<SR.Cell>, b: seq<SR.Cell>)
    ensures Chars(a + b) == Chars(a) + Chars(b)
    decreases |a|
  {
    if |a| == 0 {
      assert a + b == b;
    } else {
      assert (a + b)[1..] == a[1..] + b;
      CharsAppend(a[1..], b);
      assert Chars(a + b) == [a[0].c] + Chars(a[1..] + b);
    }
  }

  /** What the whitespace loop returns on a reader holding `cs`. */
  ghost predicate BlankResult(r: SR.Reader, cs: seq<SR.Cell>, sc: Scan)
    requires SR.Valid(r) && |cs| == SR.Remaining(r)
  {
    var k := Span(cs, IsWhitespace);
    && (k < |cs| ==> sc == Ready(cs[k].c, ReadN(r, k + 1)))
    && (k == |cs| ==> sc.Exhausted? && SR.Valid(sc.rd) && SR.Remaining(sc.rd) == 0)
  }

  /** The whitespace loop stops on the first non-blank cell, or exhausts the reader. */
  lemma {:induction false} SkipWhitespaceSpec(ch: char, r: SR.Reader)
    requires SR.Valid(r) && IsWhitespace(ch)
    ensures BlankResult(r, SR.Drain(r), SkipWhitespace(ch, r))
    decreases SR.Remaining(r), 1
  {
    match SR.Read(r)
    case Failed(r') =>
      assert SR.Drain(r) == [];
    case Got(c, r') =>
      DrainCons(r);
      if IsWhitespace(c) {
        WhitespaceStep(ch, r);
      } else {
        assert Span(SR.Drain(r), IsWhitespace) == 0;
        assert ReadN(r, 1) == r';
      }
  }

  lemma {:induction false} WhitespaceStep(ch: char, r: SR.Reader)
    requires SR.Valid(r) && IsWhitespace(ch) && SR.Read(r).Got? && IsWhitespace(SR.Read(r).c)
    ensures BlankResult(r, SR.Drain(r), SkipWhitespace(ch, r))
    decreases SR.Remaining(r), 0
  {
    var c := SR.Read(r).c;
    var r' := SR.Read(r).next;
    DrainCons(r);
    SkipWhitespaceSpec(c, r');
    BlankResultCons(r, SR.Drain(r), SR.Drain(r'), SkipWhitespace(ch, r));
  }

  /** One more blank cell in front of a loop result. */
  lemma {:induction false} BlankResultCons(r: SR.Reader, cs: seq<SR.Cell>, cs': seq<SR.Cell>, sc: Scan)
    requires SR.Valid(r) && SR.Read(r).Got? && |cs| == SR.Remaining(r) && IsWhitespace(SR.Read(r).c)
    requires cs == [SR.Cell(SR.Read(r).c, SR.Read(r).next.lineNumber, SR.Read(r).next.position)] + cs'
    requires BlankResult(SR.Read(r).next, cs', sc)
    ensures BlankResult(r, cs, sc)
  {
    var k' := Span(cs', IsWhitespace);
    assert cs[1..] == cs';
    assert Span(cs, IsWhitespace) == k' + 1;
    if k' < |cs'| {
      ReadNFirst(r, k' + 1);
    }
  }

  /**
   * Whitespace before a token is skipped: `NextToken` behaves as if the
   * first non-blank character were the lookahead.
   */
  lemma {:induction false} WhitespaceSkipped(s: Lexer)
    requires Valid(s) && !s.atEOF && IsWhitespace(s.ch)
    requires var cs := SR.Drain(s.src.value); Span(cs, IsWhitespace) < |cs|
    ensures var r := s.src.value;
      var cs := SR.Drain(r);
      var k := Span(cs, IsWhitespace);
      NextToken(s) == Classify(Lexer(false, cs[k].c, Some(ReadN(r, k + 1)), s.table))
  {
    var r := s.src.value;
    var cs := SR.Drain(r);
    var k := Span(cs, IsWhitespace);
    SkipWhitespaceSpec(s.ch, r);
    ReadyToken(s, cs[k].c, ReadN(r, k + 1));
  }

  /** An input holding nothing but blanks ends the stream. */
  lemma {:induction false} BlankInputEnds(s: Lexer)
    requires Valid(s) && !s.atEOF && IsWhitespace(s.ch)
    requires var cs := SR.Drain(s.src.value); Span(cs, IsWhitespace) == |cs|
    ensures NextToken(s).End?
  {
    SkipWhitespaceSpec(s.ch, s.src.value);
    ExhaustedToken(s);
  }

  /** When the whitespace loop stops on `c`, scanning goes on as if `c` had been the lookahead. */
  lemma {:induction false} ReadyToken(s: Lexer, c: char, r': SR.Reader)
    requires Valid(s) && !s.atEOF && SR.Valid(r') && SkipWhitespace(s.ch, s.src.value) == Ready(c, r')
    ensures !IsWhitespace(c) && NextToken(s) == Classify(Lexer(false, c, Some(r'), s.table))
  {
  }

  /** When the whitespace loop exhausts the reader, the stream ends. */
  lemma {:induction false} ExhaustedToken(s: Lexer)
    requires Valid(s) && !s.atEOF && SkipWhitespace(s.ch, s.src.value).Exhausted?
    ensures NextToken(s).End?
  {
  }

  /** Once the end flag is set the stream ends, the reader is released, and it stays ended. */
  lemma {:induction false} EndIsFinal(s: Lexer)
    requires Valid(s) && s.atEOF
    ensures NextToken(s) == End(s.(src := None))
    ensures NextToken(NextToken(s).next) == NextToken(s)
  {
  }

  /** Index of the first cell not on line `line`, or the length of `cs`. */
  function LineEnd(cs: seq<SR.Cell>, line: int): (k: nat)
    ensures k <= |cs|
    ensures k < |cs| ==> cs[k].line != line
  {
    if |cs| == 0 || cs[0].line != line then 0 else 1 + LineEnd(cs[1..], line)
  }

  /** What the comment loop returns on a reader holding `cs`. */
  ghost predicate CommentResult(r: SR.Reader, cs: seq<SR.Cell>, oldLine: int, sc: Scan)
    requires SR.Valid(r) && |cs| == SR.Remaining(r)
  {
    var k := LineEnd(cs, oldLine);
    && (k < |cs| ==> sc == Ready(cs[k].c, ReadN(r, k + 1)))
    && (k == |cs| ==> sc.Exhausted?)
  }

  /** The comment loop drops cells up to and including the first one on another line. */
  lemma {:induction false} SkipCommentSpec(ch: char, r: SR.Reader, oldLine: int)
    requires SR.Valid(r)
    ensures CommentResult(r, SR.Drain(r), oldLine, SkipComment(ch, r, oldLine))
    decreases SR.Remaining(r), 1
  {
    match SR.Read(r)
    case Failed(r') =>
      assert SR.Drain(r) == [];
    case Got(c, r') =>
      DrainCons(r);
      if r'.lineNumber == oldLine {
        CommentStep(ch, r, oldLine);
      } else {
        assert LineEnd(SR.Drain(r), oldLine) == 0;
        assert ReadN(r, 1) == r';
      }
  }

  lemma {:induction false} CommentStep(ch: char, r: SR.Reader, oldLine: int)
    requires SR.Valid(r) && SR.Read(r).Got? && SR.Read(r).next.lineNumber == oldLine
    ensures CommentResult(r, SR.Drain(r), oldLine, SkipComment(ch, r, oldLine))
    decreases SR.Remaining(r), 0
  {
    var c := SR.Read(r).c;
    var r' := SR.Read(r).next;
    DrainCons(r);
    SkipCommentSpec(c, r', oldLine);
    CommentResultCons(r, SR.Drain(r), SR.Drain(r'), oldLine, SkipComment(ch, r, oldLine));
  }

  /** One more cell on the comment's line in front of a loop result. */
  lemma {:induction false} CommentResultCons(r: SR.Reader, cs: seq<SR.Cell>, cs': seq<SR.Cell>, oldLine: int, sc: Scan)
    requires SR.Valid(r) && SR.Read(r).Got? && |cs| == SR.Remaining(r)
    requires cs == [SR.Cell(SR.Read(r).c, oldLine, SR.Read(r).next.position)] + cs'
    requires CommentResult(SR.Read(r).next, cs', oldLine, sc)
    ensures CommentResult(r, cs, oldLine, sc)
  {
    var k' := LineEnd(cs', oldLine);
    assert cs[1..] == cs';
    assert LineEnd(cs, oldLine) == k' + 1;
    if k' < |cs'| {
      ReadNFirst(r, k' + 1);
    }
  }

  /**
   * `//` discards the rest of its line: scanning resumes with the first
   * character reported on another line, or the stream ends.
   */
  lemma {:induction false} CommentSkipped(s: Lexer)
    requires Valid(s) && !s.atEOF && "//" in s.table
    requires s.ch == '/' && |SR.Drain(s.src.value)| > 0 && SR.Drain(s.src.value)[0].c == '/'
    ensures var r := s.src.value;
      var cs := SR.Drain(r);
      var k := if |cs| < 2 then |cs| else 2 + LineEnd(cs[2..], cs[1].line);
      && (k < |cs| ==> NextToken(s) == NextToken(Lexer(false, cs[k].c, Some(ReadN(r, k + 1)), s.table)))
      && (k == |cs| ==> NextToken(s).End?)
  {
    var r := s.src.value;
    var cs := SR.Drain(r);
    var t := s.table;
    PunctuationStart(s);
    ReadAt(r, 0);
    assert Intern(t, "//", BogusToken).sym.Some?;
    var cand := Operator(t, '/', r, r.position);
    if |cs| >= 2 {
      ReadAt(r, 1);
      DrainReadN(r, 2);
      var r2 := ReadN(r, 2);
      assert cand == Candidate(Lexer(false, cs[1].c, Some(r2), t), "//", r.position + 1);
      SkipCommentSpec(cs[1].c, r2, cs[1].line);
      var k' := LineEnd(cs[2..], cs[1].line);
      if k' < |cs| - 2 {
        ReadNAdd(r, 2, k' + 1);
        assert SkipComment(cs[1].c, r2, cs[1].line) == Ready(cs[k' + 2].c, ReadN(r, k' + 3));
      }
    } else {
      assert cand.state.atEOF;
    }
  }

  /** Punctuation: `NextToken` hands the maximal-munch candidate to `makeToken`. */
  lemma {:induction false} PunctuationStart(s: Lexer)
    requires Valid(s) && !s.atEOF && IsPunct(s.ch)
    ensures var r := s.src.value;
      var cand := Operator(s.table, s.ch, r, r.position);
      NextToken(s) == MakeToken(cand.state, cand.text, r.position, cand.end)
  {
  }

  /** A character that starts neither a literal nor an identifier nor a number, and is not blank. */
  predicate IsPunct(c: char) {
    !IsWhitespace(c) && c != '"' && !IsIdentStart(c) && !IsDigit(c)
  }

  /** Reading `a` then `b` characters is reading `a + b`. */
  lemma {:induction false} ReadNAdd(r: SR.Reader, a: nat, b: nat)
    requires SR.Valid(r) && a + b <= SR.Remaining(r)
    ensures ReadN(ReadN(r, a), b) == ReadN(r, a + b)
    decreases a
  {
    if a > 0 {
      var r' := SR.Read(r).next;
      ReadNAdd(r', a - 1, b);
      assert ReadN(r, a) == ReadN(r', a - 1);
      assert ReadN(r, a + b) == ReadN(r', a - 1 + b);
    }
  }

  /** `ReadNAdd` with the second count written as a successor. */
  lemma {:induction false} ReadNAddSucc(r: SR.Reader, a: nat, b: nat)
    requires SR.Valid(r) && a + b + 1 <= SR.Remaining(r)
    ensures ReadN(ReadN(r, a), b + 1) == ReadN(r, a + b + 1)
  {
    ReadNAdd(r, a, b + 1);
  }

  /**
   * Maximal munch: when the lookahead and the next character form a
   * registered spelling both are consumed as one token; otherwise the
   * lookahead alone is a token if registered, the next character becomes the
   * lookahead, and an unregistered single character is a lexical error.
   */
  lemma {:induction false} MaximalMunch(s: Lexer)
    requires Valid(s) && !s.atEOF && IsPunct(s.ch)
    requires var cs := SR.Drain(s.src.value); |cs| > 0 && [s.ch, cs[0].c] != "//"
    ensures var r := s.src.value;
      var cs := SR.Drain(r);
      var t := s.table;
      var p := r.position;
      var pair := [s.ch, cs[0].c];
      var st := NextToken(s);
      && (pair in t && |cs| >= 2 ==>
            st == Emit(Token(p, p + 1, Symbol(pair, t[pair]), cs[1].line),
                       Lexer(false, cs[1].c, Some(ReadN(r, 2)), t)))
      && (pair in t && |cs| == 1 ==>
            st.Emit? && st.tok.symbol == Symbol(pair, t[pair]) && st.tok.right == p + 1 && st.next.atEOF)
      && (pair !in t && [s.ch] in t ==>
            st == Emit(Token(p, p, Symbol([s.ch], t[[s.ch]]), cs[0].line),
                       Lexer(false, cs[0].c, Some(ReadN(r, 1)), t)))
      && (pair !in t && [s.ch] !in t ==>
            st == LexError(cs[0].c, cs[0].line, cs[0].col))
  {
    var r := s.src.value;
    var cs := SR.Drain(r);
    PunctuationStart(s);
    ReadAt(r, 0);
    DrainReadN(r, 1);
    if |cs| >= 2 {
      ReadAt(r, 1);
      DrainReadN(r, 2);
    }
  }

  /**
   * Punctuation as the last character of the input, where only the closing
   * end-of-line space follows it: a token exactly when it is registered,
   * alone or paired with that space, and the next token is the end.
   */
  lemma {:induction false} LastPunctuation(s: Lexer)
    requires Valid(s) && !s.atEOF && IsPunct(s.ch)
    requires var cs := SR.Drain(s.src.value); |cs| == 1 && cs[0].c == ' '
    ensures var st := NextToken(s);
      var t := s.table;
      var pair := [s.ch, ' '];
      && (st.Emit? <==> pair in t || [s.ch] in t)
      && (st.Emit? ==> st.tok.symbol == if pair in t then Symbol(pair, t[pair]) else Symbol([s.ch], t[[s.ch]]))
      && (st.Emit? ==> NextToken(st.next).End?)
      && (!st.Emit? ==> st.LexError?)
  {
    var r := s.src.value;
    assert [s.ch, SR.Drain(r)[0].c] != "//";
    MaximalMunch(s);
    var st := NextToken(s);
    if st.Emit? && [s.ch, ' '] !in s.table {
      DrainReadN(r, 1);
      BlankInputEnds(st.next);
    } else if st.Emit? {
      EndIsFinal(st.next);
    }
  }

  /**
   * An identifier is the lookahead followed by the longest run of
   * identifier characters; it spans one column per character, keeps the
   * character that ended it as lookahead, and takes its registered kind when
   * the spelling is known (`in` and `forall` otherwise get their own kinds,
   * anything else `Identifier`).
   */
  lemma {:induction false} IdentifierToken(s: Lexer)
    requires Valid(s) && !s.atEOF && IsIdentStart(s.ch)
    ensures var r := s.src.value;
      var cs := SR.Drain(r);
      var k := Span(cs, IsIdentPart);
      var text := [s.ch] + Chars(cs[..k]);
      var st := NextToken(s);
      && st.Emit?
      && st.tok.symbol.text == text
      && st.tok.left == r.position && st.tok.right == r.position + k
      && st.tok.right - st.tok.left + 1 == |text|
      && (text in s.table ==> st.tok.symbol.kind == s.table[text] && st.next.table == s.table)
      && (text !in s.table ==>
            && st.tok.symbol.kind == IdDefaultKind(text)
            && st.next.table == s.table[text := IdDefaultKind(text)])
      && st.next.atEOF == (k == |cs|)
      && (k < |cs| ==>
            && st.next.ch == cs[k].c && !IsIdentPart(st.next.ch)
            && st.next.src == Some(ReadN(r, k + 1))
            && st.tok.line == cs[k].line)
  {
    var r := s.src.value;
    assert NextToken(s) == LexIdent(s.table, s.ch, r, r.position);
    LexIdentSpec(s.table, s.ch, r);
  }

  /** What `LexIdent` returns on a reader holding `cs`. */
  ghost predicate IdentResult(t: Table, c: char, r: SR.Reader, cs: seq<SR.Cell>, st: Step)
    requires SR.Valid(r) && TableOk(t) && |cs| == SR.Remaining(r)
  {
    var k := Span(cs, IsIdentPart);
    var text := [c] + Chars(cs[..k]);
    var i := Intern(t, text, IdDefaultKind(text));
    && i.sym.Some?
    && st.Emit?
    && st.tok == Token(r.position, r.position + k, i.sym.value, st.tok.line)
    && st.next.table == i.table
    && st.next.atEOF == (k == |cs|)
    && (k < |cs| ==>
          && st.next.ch == cs[k].c
          && st.next.src == Some(ReadN(r, k + 1))
          && st.tok.line == cs[k].line)
  }

  lemma {:induction false} LexIdentSpec(t: Table, c: char, r: SR.Reader)
    requires SR.Valid(r) && TableOk(t)
    ensures IdentResult(t, c, r, SR.Drain(r), LexIdent(t, c, r, r.position))
  {
    var run := Accumulate([], c, r, r.position - 1, IsIdentPart);
    AccumulateFacts([], c, r, r.position - 1, IsIdentPart);
    assert [] + [c] == [c];
    var i := Intern(t, run.text, IdDefaultKind(run.text));
    InternIdent(t, run.text);
    assert LexIdent(t, c, r, r.position) == Emit(Token(r.position, run.end, i.sym.value, run.rd.lineNumber),
                                Lexer(run.failed, run.ch, Some(run.rd), i.table));
    IdentOutcome(t, c, r, SR.Drain(r), run, LexIdent(t, c, r, r.position));
  }

  /** Interning an identifier spelling always yields a symbol. */
  lemma {:induction false} InternIdent(t: Table, w: string)
    ensures Intern(t, w, IdDefaultKind(w)).sym.Some?
  {
  }

  /** The identifier token built from the accumulated run. */
  lemma {:induction false} IdentOutcome(t: Table, c: char, r: SR.Reader, cs: seq<SR.Cell>, run: Run, st: Step)
    requires SR.Valid(r) && TableOk(t) && |cs| == SR.Remaining(r)
    requires var k := Span(cs, IsIdentPart);
      && run.text == [c] + Chars(cs[..k])
      && run.end == r.position + k
      && run.failed == (k == |cs|)
      && (k < |cs| ==> run.ch == cs[k].c && run.rd == ReadN(r, k + 1) && run.rd.lineNumber == cs[k].line)
    requires var i := Intern(t, run.text, IdDefaultKind(run.text));
      i.sym.Some? && st == Emit(Token(r.position, run.end, i.sym.value, run.rd.lineNumber),
                                Lexer(run.failed, run.ch, Some(run.rd), i.table))
    ensures IdentResult(t, c, r, cs, st)
  {
  }

  /** `AccumulateSpec` from an empty accumulator, with the reader's line after a stop. */
  lemma {:induction false} AccumulateFacts(acc: string, ch: char, r: SR.Reader, end: int, more: char -> bool)
    requires SR.Valid(r)
    ensures var cs := SR.Drain(r);
      var k := Span(cs, more);
      var run := Accumulate(acc, ch, r, end, more);
      && run.text == acc + [ch] + Chars(cs[..k])
      && run.end == end + k + 1
      && run.failed == (k == |cs|)
      && (k < |cs| ==> run.ch == cs[k].c && run.rd == ReadN(r, k + 1) && run.rd.lineNumber == cs[k].line)
  {
    var cs := SR.Drain(r);
    var k := Span(cs, more);
    AccumulateSpec(acc, ch, r, end, more);
    if k < |cs| {
      DrainReadN(r, k + 1);
    }
  }

  /** Reserved words scanned from a table that keeps the initial entries get their reserved kind. */
  lemma {:induction false} ReservedWordKind(s: Lexer)
    requires Valid(s) && !s.atEOF && IsIdentStart(s.ch) && Extends(Reserved, s.table)
    ensures var st := NextToken(s);
      st.Emit? && (st.tok.symbol.text in Reserved ==> st.tok.symbol.kind == Reserved[st.tok.symbol.text])
  {
    IdentifierToken(s);
  }

  /** Index of the first cell that is a quote or lies on a line other than `line0`, or |cs|. */
  function StringStop(cs: seq<SR.Cell>, line0: int): (j: nat)
    ensures j <= |cs|
    ensures j < |cs| ==> cs[j].c == '"' || cs[j].line != line0
  {
    if |cs| == 0 || cs[0].c == '"' || cs[0].line != line0 then 0 else 1 + StringStop(cs[1..], line0)
  }

  /** No cell before the stop is a quote or on another line. */
  lemma {:induction false} BeforeStringStop(cs: seq<SR.Cell>, line0: int, i: nat)
    requires i < StringStop(cs, line0)
    ensures cs[i].c != '"' && cs[i].line == line0
    decreases i
  {
    if i > 0 {
      BeforeStringStop(cs[1..], line0, i - 1);
    }
  }

  /**
   * What the string loop returns on a reader holding `cs`: the cells up to
   * the stop appended to `acc` and the lookahead, or an error when the input
   * runs out first.
   */
  ghost predicate BodyResult(acc: string, ch: char, r: SR.Reader, cs: seq<SR.Cell>, line0: int, end: int, b: Body)
    requires SR.Valid(r) && |cs| == SR.Remaining(r)
  {
    var j := StringStop(cs, line0);
    && (j < |cs| ==> b == Body(acc + [ch] + Chars(cs[..j]), cs[j].c, ReadN(r, j + 1), end + j + 1))
    && (j == |cs| ==> b.BodyFault?)
  }

  /** The string-literal loop collects cells up to the stop; running out of input first is an error. */
  lemma {:induction false} StringBodySpec(acc: string, ch: char, r: SR.Reader, line0: int, end: int)
    requires SR.Valid(r)
    ensures BodyResult(acc, ch, r, SR.Drain(r), line0, end, StringBody(acc, ch, r, line0, line0, end))
    decreases SR.Remaining(r), 1
  {
    var cs := SR.Drain(r);
    match SR.Read(r)
    case Failed(r') =>
      assert cs == [];
    case Got(c, r') =>
      assert cs == [SR.Cell(c, r'.lineNumber, r'.position)] + SR.Drain(r');
      if c == '"' || r'.lineNumber != line0 {
        assert StringStop(cs, line0) == 0;
        assert ReadN(r, 1) == r';
        assert cs[..0] == [];
        assert StringBody(acc, ch, r, line0, line0, end) == Body(acc + [ch], c, r', end + 1);
      } else {
        StringBodyStep(acc, ch, r, line0, end);
      }
  }

  lemma {:induction false} StringBodyStep(acc: string, ch: char, r: SR.Reader, line0: int, end: int)
    requires SR.Valid(r) && SR.Read(r).Got?
    requires SR.Read(r).c != '"' && SR.Read(r).next.lineNumber == line0
    ensures BodyResult(acc, ch, r, SR.Drain(r), line0, end, StringBody(acc, ch, r, line0, line0, end))
    decreases SR.Remaining(r), 0
  {
    var c := SR.Read(r).c;
    var r' := SR.Read(r).next;
    DrainCons(r);
    StringBodySpec(acc + [ch], c, r', line0, end + 1);
    BodyResultCons(acc, ch, r, SR.Drain(r), SR.Drain(r'), line0, end, StringBody(acc, ch, r, line0, line0, end));
  }

  /** One more cell in front of a loop result, read on the same line and not a quote. */
  lemma {:induction false} BodyResultCons(acc: string, ch: char, r: SR.Reader, cs: seq<SR.Cell>, cs': seq<SR.Cell>, line0: int, end: int, b: Body)
    requires SR.Valid(r) && SR.Read(r).Got? && |cs| == SR.Remaining(r)
    requires cs == [SR.Cell(SR.Read(r).c, line0, SR.Read(r).next.position)] + cs' && SR.Read(r).c != '"'
    requires BodyResult(acc + [ch], SR.Read(r).c, SR.Read(r).next, cs', line0, end + 1, b)
    ensures BodyResult(acc, ch, r, cs, line0, end, b)
  {
    var j' := StringStop(cs', line0);
    assert cs[1..] == cs';
    assert StringStop(cs, line0) == j' + 1;
    if j' < |cs'| {
      CharsCons(cs, j');
      ReadNFirst(r, j' + 1);
    }
  }

  /** Reading `n + 1` cells is one read and then `n` more. */
  lemma {:induction false} ReadNFirst(r: SR.Reader, n: nat)
    requires SR.Valid(r) && SR.Read(r).Got? && n + 1 <= SR.Remaining(r)
    ensures ReadN(r, n + 1) == ReadN(SR.Read(r).next, n)
  {
  }

  /** The first read delivers the first cell. */
  lemma {:induction false} DrainCons(r: SR.Reader)
    requires SR.Valid(r) && SR.Read(r).Got?
    ensures var r' := SR.Read(r).next;
      SR.Drain(r) == [SR.Cell(SR.Read(r).c, r'.lineNumber, r'.position)] + SR.Drain(r')
  {
  }

  /** Characters of a nonempty prefix. */
  lemma {:induction false} CharsCons(cs: seq<SR.Cell>, j: nat)
    requires j < |cs|
    ensures Chars(cs[..j + 1]) == [cs[0].c] + Chars(cs[1..][..j])
  {
    assert cs[..j + 1][1..] == cs[1..][..j];
  }

  /**
   * `LexString` on the reader that delivered the opening quote: the text is
   * every cell up to the first quote or the first cell on another line
   * (index `j`, at least 1); the cell at `j` is consumed and the one after
   * it becomes the lookahead. Running out of input first is an error.
   */
  ghost predicate StringResult(t: Table, r: SR.Reader, st: Step)
    requires SR.Valid(r) && TableOk(t)
  {
    StringResultOn(t, r, SR.Drain(r), st)
  }

  /** `StringResult` over the cells `cs` the reader holds. */
  ghost predicate StringResultOn(t: Table, r: SR.Reader, cs: seq<SR.Cell>, st: Step)
    requires SR.Valid(r) && TableOk(t) && |cs| == SR.Remaining(r)
  {
    && (|cs| == 0 ==> st.LexError?)
    && (|cs| > 0 ==>
          var j := 1 + StringStop(cs[1..], r.lineNumber);
          var i := Intern(t, Chars(cs[..j]), StringLit);
          && (j == |cs| ==> st.LexError?)
          && (j < |cs| ==>
                && st.Emit?
                && st.tok.symbol == i.sym.value
                && st.tok.left == r.position && st.tok.right == r.position + j + 1
                && st.next.table == i.table
                && (j + 1 < |cs| ==>
                      && st.next == Lexer(false, cs[j + 1].c, Some(ReadN(r, j + 2)), i.table)
                      && st.tok.line == cs[j + 1].line)))
  }

  lemma {:induction false} LexStringSpec(t: Table, r: SR.Reader)
    requires SR.Valid(r) && TableOk(t)
    ensures StringResult(t, r, LexString(t, r, r.position))
  {
    var cs := SR.Drain(r);
    var st := LexString(t, r, r.position);
    if |cs| > 0 {
      var j := 1 + StringStop(cs[1..], r.lineNumber);
      var b := StringBody([], cs[0].c, SR.Read(r).next, r.lineNumber, r.lineNumber, r.position);
      StringLoopHolds(r, b, j);
      LexStringUnfold(t, r, b);
      StringOutcome(t, r, cs, st, b, j);
    } else {
      assert SR.Read(r).Failed?;
    }
  }

  /** The string loop and the read after it, on the reader that delivered the opening quote. */
  lemma {:induction false} StringLoopHolds(r: SR.Reader, b: Body, j: nat)
    requires SR.Valid(r) && SR.Read(r).Got?
    requires j == 1 + StringStop(SR.Drain(r)[1..], r.lineNumber)
    requires b == StringBody([], SR.Read(r).c, SR.Read(r).next, r.lineNumber, r.lineNumber, r.position)
    ensures StringLoop(r, SR.Drain(r), b, j)
  {
    StringOpening(r);
    if j + 1 < |SR.Drain(r)| {
      StringFollower(r, b, j);
    }
  }

  /**
   * What the string loop and the read after it did: `b` is the loop's
   * result stopped at cell `j`.
   */
  ghost predicate StringLoop(r: SR.Reader, cs: seq<SR.Cell>, b: Body, j: nat)
    requires SR.Valid(r) && |cs| == SR.Remaining(r)
  {
    && 1 <= j <= |cs|
    && (j == |cs| ==> b.BodyFault?)
    && (j < |cs| ==> b == Body(Chars(cs[..j]), cs[j].c, ReadN(r, j + 1), r.position + j))
    && (j + 1 < |cs| ==> SR.Read(b.rd) == SR.Got(cs[j + 1].c, ReadN(r, j + 2)) && ReadN(r, j + 2).lineNumber == cs[j + 1].line)
  }

  /** `st` is the scanner's result built from the loop's result `b`. */
  ghost predicate StringEmits(t: Table, r: SR.Reader, st: Step, b: Body)
    requires TableOk(t) && (b.Body? ==> SR.Valid(b.rd))
  {
    && (b.BodyFault? ==> st.LexError?)
    && (b.Body? ==>
          var i := Intern(t, b.text, StringLit);
          st == match SR.Read(b.rd)
                case Got(c, r3) =>
                  Emit(Token(r.position, b.end + 1, i.sym.value, r3.lineNumber), Lexer(false, c, Some(r3), i.table))
                case Failed(r3) =>
                  Emit(Token(r.position, b.end + 1, i.sym.value, r3.lineNumber), Lexer(false, b.ch, Some(r3), i.table)))
  }

  /** The scanner's result, from the loop's result `b` stopped at cell `j`. */
  lemma {:induction false} StringOutcome(t: Table, r: SR.Reader, cs: seq<SR.Cell>, st: Step, b: Body, j: nat)
    requires SR.Valid(r) && TableOk(t) && |cs| == SR.Remaining(r) && |cs| > 0
    requires j == 1 + StringStop(cs[1..], r.lineNumber) && StringLoop(r, cs, b, j) && StringEmits(t, r, st, b)
    ensures StringResultOn(t, r, cs, st)
  {
    if j < |cs| {
      var i := Intern(t, Chars(cs[..j]), StringLit);
      StringToken(t, r.position, b, st, r.position + j, i);
    }
  }

  /** The token a finished string body yields. */
  lemma {:induction false} StringToken(t: Table, left: int, b: Body, st: Step, end: int, i: Interned)
    requires TableOk(t) && b.Body? && SR.Valid(b.rd) && b.end == end && i == Intern(t, b.text, StringLit)
    requires st == match SR.Read(b.rd)
                  case Got(c, r3) => Emit(Token(left, b.end + 1, i.sym.value, r3.lineNumber), Lexer(false, c, Some(r3), i.table))
                  case Failed(r3) => Emit(Token(left, b.end + 1, i.sym.value, r3.lineNumber), Lexer(false, b.ch, Some(r3), i.table))
    ensures st.Emit? && st.tok.symbol == i.sym.value && st.tok.left == left && st.tok.right == end + 1 && st.next.table == i.table
  {
  }

  /** The state after a string literal that is not the last thing in the input. */
  lemma {:induction false} StringFollower(r: SR.Reader, b: Body, j: nat)
    requires SR.Valid(r) && j + 1 < |SR.Drain(r)|
    requires b == Body(Chars(SR.Drain(r)[..j]), SR.Drain(r)[j].c, ReadN(r, j + 1), r.position + j)
    ensures var cs := SR.Drain(r);
      SR.Read(b.rd) == SR.Got(cs[j + 1].c, ReadN(r, j + 2)) && ReadN(r, j + 2).lineNumber == cs[j + 1].line
  {
    ReadAt(r, j + 1);
    DrainReadN(r, j + 2);
  }

  lemma {:induction false} LexStringUnfold(t: Table, r: SR.Reader, b: Body)
    requires SR.Valid(r) && TableOk(t) && SR.Read(r).Got?
    requires b == StringBody([], SR.Read(r).c, SR.Read(r).next, r.lineNumber, r.lineNumber, r.position)
    ensures StringEmits(t, r, LexString(t, r, r.position), b)
  {
  }

  /** The loop started after the opening quote stops at `j` = 1 + the stop of the remaining cells. */
  lemma {:induction false} StringOpening(r: SR.Reader)
    requires SR.Valid(r) && |SR.Drain(r)| > 0
    ensures var cs := SR.Drain(r);
      var j := 1 + StringStop(cs[1..], r.lineNumber);
      var b := StringBody([], cs[0].c, SR.Read(r).next, r.lineNumber, r.lineNumber, r.position);
      && (j < |cs| ==> b == Body(Chars(cs[..j]), cs[j].c, ReadN(r, j + 1), r.position + j))
      && (j == |cs| ==> b.BodyFault?)
  {
    var cs := SR.Drain(r);
    var r1 := SR.Read(r).next;
    DrainCons(r);
    StringBodySpec([], cs[0].c, r1, r.lineNumber, r.position);
    var j' := StringStop(cs[1..], r.lineNumber);
    if j' < |cs| - 1 {
      CharsCons(cs, j');
      ReadNFirst(r, j' + 1);
      assert [] + [cs[0].c] == [cs[0].c];
    }
  }

  /**
   * A string literal: its token spans the opening quote to the cell that
   * ended it. Its text excludes the opening quote and that cell, so a
   * literal closed by a quote excludes both quotes.
   */
  lemma {:induction false} StringLiteral(s: Lexer)
    requires Valid(s) && !s.atEOF && s.ch == '"'
    ensures StringResult(s.table, s.src.value, NextToken(s))
  {
    StringStart(s);
    LexStringSpec(s.table, s.src.value);
  }

  /** A quote lookahead starts a string literal. */
  lemma {:induction false} StringStart(s: Lexer)
    requires Valid(s) && !s.atEOF && s.ch == '"'
    ensures NextToken(s) == LexString(s.table, s.src.value, s.src.value.position)
  {
  }

  /**
   * Reference shape of an exponent: after the marker `marker`, the cells
   * `es` hold a sign, at least one digit, then a cell that ends the digits.
   * Result: the index of that cell in `es`.
   */
  function ExponentEnd(marker: char, es: seq<SR.Cell>): (q: Option<nat>)
    ensures q.Some? ==> 3 <= q.value + 1 <= |es|
  {
    if !IsExponentMarker(marker) || |es| < 2 || (es[0].c != '+' && es[0].c != '-') || !IsDigit(es[1].c)
    then None
    else
      var q := 2 + Span(es[2..], IsDigit);
      if q < |es| then Some(q) else None
  }

  /**
   * Reference shape of a scientific literal after `d.`: one fraction
   * character of any kind, at most one further digit, then an exponent.
   * Result: the index in `ds` of the cell that ends the literal.
   */
  function FractionEnd(ds: seq<SR.Cell>): (q: Option<nat>)
    ensures q.Some? ==> q.value < |ds|
  {
    if |ds| < 2 then None
    else if !IsDigit(ds[1].c) then
      match ExponentEnd(ds[1].c, ds[2..])
      case None => None
      case Some(e) => Some(2 + e)
    else if |ds| < 3 || IsDigit(ds[2].c) then None
    else
      match ExponentEnd(ds[2].c, ds[3..])
      case None => None
      case Some(e) => Some(3 + e)
  }

  /**
   * What the scanner yields for the reference end `q` of the cells after an
   * exponent marker, `num` being the literal up to the marker and `end` the
   * column of its last character: an error when there is none; otherwise
   * the token spelled `num` and the cells before `q`, with the cell at `q`
   * as the new lookahead.
   */
  ghost predicate ExponentOutcome(t: Table, num: string, r: SR.Reader, start: int, end: int, st: Step, q: Option<nat>)
    requires SR.Valid(r)
  {
    LiteralOutcome(t, num, r, SR.Drain(r), start, end, st, q)
  }

  /** `ExponentOutcome` over the cells `es` the reader holds. */
  ghost predicate LiteralOutcome(t: Table, num: string, r: SR.Reader, es: seq<SR.Cell>, start: int, end: int,
                                 st: Step, q: Option<nat>)
    requires SR.Valid(r) && |es| == SR.Remaining(r)
  {
    && (q.None? ==> st.LexError?)
    && (q.Some? ==> q.value < |es| && EmitsLiteral(t, num, r, es, start, end, st, q.value))
  }

  /**
   * `st` emits the scientific literal spelled `num` and the cells before
   * `q`, ending `q + 1` columns after `end`, with the cell at `q` as the new
   * lookahead.
   */
  ghost predicate EmitsLiteral(t: Table, num: string, r: SR.Reader, es: seq<SR.Cell>, start: int, end: int,
                               st: Step, q: nat)
    requires SR.Valid(r) && |es| == SR.Remaining(r) && q < |es|
  {
    EmitsText(t, num + Chars(es[..q]), start, end + q + 1, es[q], ReadN(r, q + 1), st)
  }

  /** `st` emits the scientific literal `text` ending at column `right`, with `cell` as the new lookahead. */
  ghost predicate EmitsText(t: Table, text: string, start: int, right: int, cell: SR.Cell, rd: SR.Reader, st: Step) {
    var i := Intern(t, text, ScientificLit);
    st == Emit(Token(start, right, i.sym.value, cell.line), Lexer(false, cell.c, Some(rd), i.table))
  }

  /** `Exponent`, with `r` positioned after the marker: it follows `ExponentEnd`. */
  lemma {:induction false} ExponentSpec(t: Table, num: string, ch: char, r: SR.Reader, start: int, end: int)
    requires SR.Valid(r) && TableOk(t) && start <= end
    ensures ExponentOutcome(t, num + [ch], r, start, end, Exponent(t, num, ch, r, start, end), ExponentEnd(ch, SR.Drain(r)))
  {
    var es := SR.Drain(r);
    if IsExponentMarker(ch) && |es| >= 2 && (es[0].c == '+' || es[0].c == '-') && IsDigit(es[1].c) {
      ExponentDigits(t, num, ch, r, start, end);
    } else {
      ExponentMalformed(t, num, ch, r, start, end);
    }
  }

  lemma {:induction false} ExponentMalformed(t: Table, num: string, ch: char, r: SR.Reader, start: int, end: int)
    requires SR.Valid(r) && TableOk(t) && start <= end
    requires var es := SR.Drain(r);
      !(IsExponentMarker(ch) && |es| >= 2 && (es[0].c == '+' || es[0].c == '-') && IsDigit(es[1].c))
    ensures Exponent(t, num, ch, r, start, end).LexError?
  {
    ReadAt(r, 0);
    if SR.Remaining(r) > 0 {
      ReadAt(r, 1);
    }
  }

  lemma {:induction false} ExponentDigits(t: Table, num: string, ch: char, r: SR.Reader, start: int, end: int)
    requires SR.Valid(r) && TableOk(t) && start <= end
    requires var es := SR.Drain(r);
      IsExponentMarker(ch) && |es| >= 2 && (es[0].c == '+' || es[0].c == '-') && IsDigit(es[1].c)
    ensures ExponentOutcome(t, num + [ch], r, start, end, Exponent(t, num, ch, r, start, end), ExponentEnd(ch, SR.Drain(r)))
  {
    ExponentEndValue(ch, SR.Drain(r));
    DigitsOutcome(t, num, ch, r, start, end);
  }

  /** The exponent's digit run ends at the first non-digit after the sign and the first digit. */
  lemma {:induction false} DigitsOutcome(t: Table, num: string, ch: char, r: SR.Reader, start: int, end: int)
    requires SR.Valid(r) && TableOk(t) && start <= end
    requires var es := SR.Drain(r);
      IsExponentMarker(ch) && |es| >= 2 && (es[0].c == '+' || es[0].c == '-') && IsDigit(es[1].c)
    ensures var es := SR.Drain(r);
      var q := 2 + Span(es[2..], IsDigit);
      ExponentOutcome(t, num + [ch], r, start, end, Exponent(t, num, ch, r, start, end), if q < |es| then Some(q) else None)
  {
    var es := SR.Drain(r);
    var run := Accumulate(num + [ch, es[0].c], es[1].c, ReadN(r, 2), end + 2, IsDigit);
    DigitsRun(t, num, ch, r, start, end);
    RunOutcome(t, num + [ch], r, start, end, Exponent(t, num, ch, r, start, end), run, 2 + Span(es[2..], IsDigit));
  }

  /** `st` is what `Exponent` builds from its digit run: an error when the run hit the end of input, else the literal. */
  ghost predicate FromRun(t: Table, start: int, run: Run, st: Step) {
    st == if run.failed then Fault(run.ch, run.rd)
          else
            var i := Intern(t, run.text, ScientificLit);
            Emit(Token(start, run.end, i.sym.value, run.rd.lineNumber),
                 Lexer(false, run.ch, Some(run.rd), i.table))
  }

  /** The exponent's digit run, and what `Exponent` builds from it. */
  lemma {:induction false} DigitsRun(t: Table, num: string, ch: char, r: SR.Reader, start: int, end: int)
    requires SR.Valid(r) && TableOk(t) && start <= end
    requires var es := SR.Drain(r);
      IsExponentMarker(ch) && |es| >= 2 && (es[0].c == '+' || es[0].c == '-') && IsDigit(es[1].c)
    ensures var es := SR.Drain(r);
      var run := Accumulate(num + [ch, es[0].c], es[1].c, ReadN(r, 2), end + 2, IsDigit);
      && FromRun(t, start, run, Exponent(t, num, ch, r, start, end))
      && RunFits(num + [ch], r, end, run, 2 + Span(es[2..], IsDigit))
  {
    ExponentSteps(t, num, ch, r, start, end);
    ExponentRun(num, ch, r, end);
  }

  /** `run` took the cells before `q` after `num`, and stopped on cell `q` or ran out of input at it. */
  ghost predicate RunFits(num: string, r: SR.Reader, end: int, run: Run, q: nat)
    requires SR.Valid(r) && q <= SR.Remaining(r)
  {
    var es := SR.Drain(r);
    && run.text == num + Chars(es[..q]) && run.end == end + q + 1 && run.failed == (q == |es|)
    && (q < |es| ==> run.ch == es[q].c && run.rd == ReadN(r, q + 1) && run.rd.lineNumber == es[q].line)
  }

  /** A digit run that ended at cell `q` (or ran out of input) gives the outcome for `q`. */
  lemma {:induction false} RunOutcome(t: Table, num: string, r: SR.Reader, start: int, end: int, st: Step, run: Run, q: nat)
    requires SR.Valid(r) && q <= |SR.Drain(r)|
    requires FromRun(t, start, run, st)
    requires RunFits(num, r, end, run, q)
    ensures ExponentOutcome(t, num, r, start, end, st, if q < |SR.Drain(r)| then Some(q) else None)
  {
  }

  lemma {:induction false} ExponentSteps(t: Table, num: string, ch: char, r: SR.Reader, start: int, end: int)
    requires SR.Valid(r) && TableOk(t) && start <= end
    requires var es := SR.Drain(r);
      IsExponentMarker(ch) && |es| >= 2 && (es[0].c == '+' || es[0].c == '-') && IsDigit(es[1].c)
    ensures var es := SR.Drain(r);
      var run := Accumulate(num + [ch, es[0].c], es[1].c, ReadN(r, 2), end + 2, IsDigit);
      FromRun(t, start, run, Exponent(t, num, ch, r, start, end))
  {
    var es := SR.Drain(r);
    ReadAt(r, 0);
    ReadAt(r, 1);
    ExponentUnfold(t, num, ch, r, start, end, es[0].c, ReadN(r, 1), es[1].c, ReadN(r, 2));
  }

  /** The digit loop of the exponent, in terms of the cells after the marker. */
  lemma {:induction false} ExponentRun(num: string, ch: char, r: SR.Reader, end: int)
    requires SR.Valid(r) && |SR.Drain(r)| >= 2
    ensures var es := SR.Drain(r);
      RunFits(num + [ch], r, end, Accumulate(num + [ch, es[0].c], es[1].c, ReadN(r, 2), end + 2, IsDigit),
              2 + Span(es[2..], IsDigit))
  {
    var es := SR.Drain(r);
    var k := Span(es[2..], IsDigit);
    DrainReadN(r, 2);
    AccumulateFacts(num + [ch, es[0].c], es[1].c, ReadN(r, 2), end + 2, IsDigit);
    ExponentText(num, ch, es, k);
    if 2 + k < |es| {
      ReadNAdd(r, 2, k + 1);
    }
  }

  lemma {:induction false} ExponentUnfold(t: Table, num: string, ch: char, r: SR.Reader, start: int, end: int,
                        sign: char, r5: SR.Reader, d: char, r6: SR.Reader)
    requires SR.Valid(r) && TableOk(t) && start <= end
    requires IsExponentMarker(ch) && (sign == '+' || sign == '-') && IsDigit(d)
    requires SR.Read(r) == SR.Got(sign, r5) && SR.Read(r5) == SR.Got(d, r6)
    ensures var run := Accumulate(num + [ch, sign], d, r6, end + 2, IsDigit);
      FromRun(t, start, run, Exponent(t, num, ch, r, start, end))
  {
  }

  lemma {:induction false} ExponentEndValue(ch: char, es: seq<SR.Cell>)
    requires IsExponentMarker(ch) && |es| >= 2 && (es[0].c == '+' || es[0].c == '-') && IsDigit(es[1].c)
    ensures var q := 2 + Span(es[2..], IsDigit);
      ExponentEnd(ch, es) == if q < |es| then Some(q) else None
  {
  }

  lemma {:induction false} ExponentText(num: string, ch: char, es: seq<SR.Cell>, k: nat)
    requires 2 + k <= |es|
    ensures num + [ch, es[0].c] + [es[1].c] + Chars(es[2..][..k]) == (num + [ch]) + Chars(es[..2 + k])
  {
    assert es[..2 + k] == es[..2] + es[2..][..k];
    CharsAppend(es[..2], es[2..][..k]);
    assert Chars(es[..2]) == [es[0].c, es[1].c];
  }

  /** `o` moved `m` places to the right. */
  function Shift(o: Option<nat>, m: nat): Option<nat> {
    if o.None? then None else Some(m + o.value)
  }

  /**
   * What the number scanner yields after `c.` for the reference end `q` of
   * the cells after the `.`: an error when there is none; otherwise the
   * token spelled `c`, `.` and the cells before `q`, spanning one column per
   * character, with the cell at `q` as the new lookahead.
   */
  ghost predicate ScientificOutcome(t: Table, c: char, r: SR.Reader, start: int, st: Step, q: Option<nat>)
    requires SR.Valid(r)
  {
    LiteralOutcome(t, [c, '.'], r, SR.Drain(r), start, start, st, q)
  }

  /** The exponent that follows a fraction of `m - 1` characters, in terms of the cells after `.`. */
  lemma {:induction false} ExponentAfterFraction(t: Table, c: char, r: SR.Reader, start: int, m: nat)
    requires SR.Valid(r) && TableOk(t) && (m == 2 || m == 3) && m <= |SR.Drain(r)|
    ensures var ds := SR.Drain(r);
      var st := Exponent(t, [c, '.'] + Chars(ds[..m - 1]), ds[m - 1].c, ReadN(r, m), start, start + m);
      ScientificOutcome(t, c, r, start, st, Shift(ExponentEnd(ds[m - 1].c, ds[m..]), m))
  {
    var ds := SR.Drain(r);
    DrainReadN(r, m);
    var st := Exponent(t, [c, '.'] + Chars(ds[..m - 1]), ds[m - 1].c, ReadN(r, m), start, start + m);
    ExponentSpec(t, [c, '.'] + Chars(ds[..m - 1]), ds[m - 1].c, ReadN(r, m), start, start + m);
    CharsSnoc(ds, m);
    assert [c, '.'] + Chars(ds[..m - 1]) + [ds[m - 1].c] == [c, '.'] + Chars(ds[..m]);
    OutcomeShift(t, [c, '.'], r, ds, start, start, m, st, ExponentEnd(ds[m - 1].c, ds[m..]));
  }

  /**
   * An outcome on the reader `m` cells further on, for the literal extended
   * by those cells, is the outcome on the earlier reader with the end moved
   * `m` cells.
   */
  lemma {:induction false} OutcomeShift(t: Table, num: string, r: SR.Reader, ds: seq<SR.Cell>, start: int, end: int, m: nat,
                     st: Step, e: Option<nat>)
    requires SR.Valid(r) && |ds| == SR.Remaining(r) && m <= |ds|
    requires LiteralOutcome(t, num + Chars(ds[..m]), ReadN(r, m), ds[m..], start, end + m, st, e)
    ensures LiteralOutcome(t, num, r, ds, start, end, st, Shift(e, m))
  {
    if e.None? {
      ShiftNone(t, num, r, ds, start, end, m, st, e);
    } else {
      ShiftSome(t, num, r, ds, start, end, m, st, e);
    }
  }

  lemma {:induction false} ShiftNone(t: Table, num: string, r: SR.Reader, ds: seq<SR.Cell>, start: int, end: int, m: nat,
                                     st: Step, e: Option<nat>)
    requires SR.Valid(r) && |ds| == SR.Remaining(r) && m <= |ds| && e.None?
    requires LiteralOutcome(t, num + Chars(ds[..m]), ReadN(r, m), ds[m..], start, end + m, st, e)
    ensures LiteralOutcome(t, num, r, ds, start, end, st, Shift(e, m))
  {
    assert st.LexError?;
    assert Shift(e, m) == None;
  }

  lemma {:induction false} ShiftSome(t: Table, num: string, r: SR.Reader, ds: seq<SR.Cell>, start: int, end: int, m: nat,
                                     st: Step, e: Option<nat>)
    requires SR.Valid(r) && |ds| == SR.Remaining(r) && m <= |ds| && e.Some?
    requires LiteralOutcome(t, num + Chars(ds[..m]), ReadN(r, m), ds[m..], start, end + m, st, e)
    ensures LiteralOutcome(t, num, r, ds, start, end, st, Shift(e, m))
  {
    var q := e.value;
    EmitsShift(t, num, r, ds, start, end, m, q, st);
    assert Shift(e, m) == Some(m + q);
  }

  lemma {:induction false} EmitsShift(t: Table, num: string, r: SR.Reader, ds: seq<SR.Cell>, start: int, end: int, m: nat, q: nat,
                   st: Step)
    requires SR.Valid(r) && |ds| == SR.Remaining(r) && m + q < |ds|
    requires EmitsLiteral(t, num + Chars(ds[..m]), ReadN(r, m), ds[m..], start, end + m, st, q)
    ensures EmitsLiteral(t, num, r, ds, start, end, st, m + q)
  {
    ReadNAddSucc(r, m, q);
    CharsSplit(num, ds, m, q);
    assert ds[m..][q] == ds[m + q];
  }

  /** The text before cell `m + q` is the text before cell `m` and the `q` cells after it. */
  lemma {:induction false} CharsSplit(num: string, ds: seq<SR.Cell>, m: nat, q: nat)
    requires m + q <= |ds|
    ensures num + Chars(ds[..m]) + Chars(ds[m..][..q]) == num + Chars(ds[..m + q])
  {
    assert ds[..m + q] == ds[..m] + ds[m..][..q];
    CharsAppend(ds[..m], ds[m..][..q]);
  }

  /** Characters of a prefix one cell longer. */
  lemma {:induction false} CharsSnoc(ds: seq<SR.Cell>, m: nat)
    requires 1 <= m <= |ds|
    ensures Chars(ds[..m - 1]) + [ds[m - 1].c] == Chars(ds[..m])
  {
    assert ds[..m] == ds[..m - 1] + [ds[m - 1]];
    CharsAppend(ds[..m - 1], [ds[m - 1]]);
    assert Chars([ds[m - 1]]) == [ds[m - 1].c];
  }

  /**
   * `LexScientific`, with `r` having just delivered the `.` after digit `c`:
   * it follows the reference shape `FractionEnd` of the cells after the `.`.
   */
  lemma {:induction false} LexScientificSpec(t: Table, c: char, r: SR.Reader, start: int)
    requires SR.Valid(r) && TableOk(t)
    ensures ScientificOutcome(t, c, r, start, LexScientific(t, c, r, start), FractionEnd(SR.Drain(r)))
  {
    var ds := SR.Drain(r);
    if |ds| < 2 || (IsDigit(ds[1].c) && (|ds| < 3 || IsDigit(ds[2].c))) {
      ScientificMalformed(t, c, r, start);
    } else {
      ScientificWithExponent(t, c, r, start, if IsDigit(ds[1].c) then 3 else 2);
    }
  }

  /** A fraction of `m - 1` characters followed by the exponent marker. */
  lemma {:induction false} ScientificWithExponent(t: Table, c: char, r: SR.Reader, start: int, m: nat)
    requires SR.Valid(r) && TableOk(t)
    requires var ds := SR.Drain(r);
      || (m == 2 && |ds| >= 2 && !IsDigit(ds[1].c))
      || (m == 3 && |ds| >= 3 && IsDigit(ds[1].c) && !IsDigit(ds[2].c))
    ensures ScientificOutcome(t, c, r, start, LexScientific(t, c, r, start), FractionEnd(SR.Drain(r)))
  {
    ScientificToExponent(t, c, r, start, m);
    ExponentAfterFraction(t, c, r, start, m);
    FractionEndValue(SR.Drain(r), m);
  }

  lemma {:induction false} ScientificToExponent(t: Table, c: char, r: SR.Reader, start: int, m: nat)
    requires SR.Valid(r) && TableOk(t)
    requires var ds := SR.Drain(r);
      || (m == 2 && |ds| >= 2 && !IsDigit(ds[1].c))
      || (m == 3 && |ds| >= 3 && IsDigit(ds[1].c) && !IsDigit(ds[2].c))
    ensures var ds := SR.Drain(r);
      LexScientific(t, c, r, start)
        == Exponent(t, [c, '.'] + Chars(ds[..m - 1]), ds[m - 1].c, ReadN(r, m), start, start + m)
  {
    if m == 2 {
      ScientificToExponent2(t, c, r, start);
    } else {
      ScientificToExponent3(t, c, r, start);
    }
  }

  /** A one-character fraction. */
  lemma {:induction false} ScientificToExponent2(t: Table, c: char, r: SR.Reader, start: int)
    requires SR.Valid(r) && TableOk(t)
    requires var ds := SR.Drain(r); |ds| >= 2 && !IsDigit(ds[1].c)
    ensures var ds := SR.Drain(r);
      LexScientific(t, c, r, start) == Exponent(t, [c, '.'] + Chars(ds[..1]), ds[1].c, ReadN(r, 2), start, start + 2)
  {
    var ds := SR.Drain(r);
    ReadAt(r, 0);
    ReadAt(r, 1);
    ScientificUnfold1(t, c, r, start, ds[0].c, ReadN(r, 1), ds[1].c, ReadN(r, 2));
    FractionText1(c, ds);
  }

  /** A two-character fraction. */
  lemma {:induction false} ScientificToExponent3(t: Table, c: char, r: SR.Reader, start: int)
    requires SR.Valid(r) && TableOk(t)
    requires var ds := SR.Drain(r); |ds| >= 3 && IsDigit(ds[1].c) && !IsDigit(ds[2].c)
    ensures var ds := SR.Drain(r);
      LexScientific(t, c, r, start) == Exponent(t, [c, '.'] + Chars(ds[..2]), ds[2].c, ReadN(r, 3), start, start + 3)
  {
    var ds := SR.Drain(r);
    ReadAt(r, 0);
    ReadAt(r, 1);
    ReadAt(r, 2);
    ScientificUnfold2(t, c, r, start, ds[0].c, ReadN(r, 1), ds[1].c, ReadN(r, 2), ds[2].c, ReadN(r, 3));
    FractionText2(c, ds);
  }

  lemma {:induction false} FractionText1(c: char, ds: seq<SR.Cell>)
    requires |ds| >= 1
    ensures [c, '.'] + Chars(ds[..1]) == [c, '.', ds[0].c]
  {
    assert Chars(ds[..1]) == [ds[..1][0].c] + Chars(ds[..1][1..]);
  }

  lemma {:induction false} FractionText2(c: char, ds: seq<SR.Cell>)
    requires |ds| >= 2
    ensures [c, '.'] + Chars(ds[..2]) == [c, '.', ds[0].c, ds[1].c]
  {
    CharsCons(ds, 1);
    FractionText1(c, ds[1..]);
  }

  lemma {:induction false} FractionEndValue(ds: seq<SR.Cell>, m: nat)
    requires || (m == 2 && |ds| >= 2 && !IsDigit(ds[1].c))
             || (m == 3 && |ds| >= 3 && IsDigit(ds[1].c) && !IsDigit(ds[2].c))
    ensures FractionEnd(ds) == Shift(ExponentEnd(ds[m - 1].c, ds[m..]), m)
  {
  }

  lemma {:induction false} ScientificMalformed(t: Table, c: char, r: SR.Reader, start: int)
    requires SR.Valid(r) && TableOk(t)
    requires var ds := SR.Drain(r);
      |ds| < 2 || (IsDigit(ds[1].c) && (|ds| < 3 || IsDigit(ds[2].c)))
    ensures FractionEnd(SR.Drain(r)).None? && LexScientific(t, c, r, start).LexError?
  {
    ReadAt(r, 0);
    if SR.Remaining(r) >= 1 {
      ReadAt(r, 1);
    }
    if SR.Remaining(r) >= 2 {
      ReadAt(r, 2);
    }
  }

  lemma {:induction false} ScientificUnfold1(t: Table, c: char, r: SR.Reader, start: int,
                          f1: char, r2: SR.Reader, x: char, r3: SR.Reader)
    requires SR.Valid(r) && TableOk(t)
    requires SR.Read(r) == SR.Got(f1, r2) && SR.Read(r2) == SR.Got(x, r3) && !IsDigit(x)
    ensures LexScientific(t, c, r, start) == Exponent(t, [c, '.', f1], x, r3, start, start + 2)
  {
  }

  lemma {:induction false} ScientificUnfold2(t: Table, c: char, r: SR.Reader, start: int,
                          f1: char, r2: SR.Reader, x: char, r3: SR.Reader, y: char, r4: SR.Reader)
    requires SR.Valid(r) && TableOk(t)
    requires SR.Read(r) == SR.Got(f1, r2) && SR.Read(r2) == SR.Got(x, r3) && IsDigit(x)
    requires SR.Read(r3) == SR.Got(y, r4) && !IsDigit(y)
    ensures LexScientific(t, c, r, start) == Exponent(t, [c, '.', f1, x], y, r4, start, start + 3)
  {
  }

  /** A lone digit is an integer token one column wide. */
  lemma {:induction false} IntegerToken(s: Lexer)
    requires Valid(s) && !s.atEOF && IsDigit(s.ch)
    requires var cs := SR.Drain(s.src.value); |cs| > 0 && !IsDigit(cs[0].c) && cs[0].c != '.'
    ensures var r := s.src.value;
      var cs := SR.Drain(r);
      var p := r.position;
      var i := Intern(s.table, [s.ch], INTeger);
      NextToken(s) == Emit(Token(p, p, i.sym.value, cs[0].line), Lexer(false, cs[0].c, Some(ReadN(r, 1)), i.table))
  {
    var r := s.src.value;
    NumberStart(s);
    ReadAt(r, 0);
    DrainReadN(r, 1);
  }

  /**
   * A digit followed by another digit is rejected, whatever follows. The
   * `|cs| == 0` case is a state no input reaches: the reader ends every line
   * with a space, so a digit is never the last character it delivers.
   */
  lemma {:induction false} DigitRunRejected(s: Lexer)
    requires Valid(s) && !s.atEOF && IsDigit(s.ch)
    requires var cs := SR.Drain(s.src.value); |cs| == 0 || IsDigit(cs[0].c)
    ensures NextToken(s).LexError?
  {
    NumberStart(s);
    ReadAt(s.src.value, 0);
  }

  /** A digit followed by `.` is a scientific literal shaped as `FractionEnd` says. */
  lemma {:induction false} ScientificToken(s: Lexer)
    requires Valid(s) && !s.atEOF && IsDigit(s.ch)
    requires var cs := SR.Drain(s.src.value); |cs| > 0 && cs[0].c == '.'
    ensures var r := s.src.value;
      var cs := SR.Drain(r);
      && SR.Drain(ReadN(r, 1)) == cs[1..]
      && ScientificOutcome(s.table, s.ch, ReadN(r, 1), r.position, NextToken(s), FractionEnd(cs[1..]))
  {
    var r := s.src.value;
    NumberStart(s);
    ReadAt(r, 0);
    DrainReadN(r, 1);
    NumberUnfold(s.table, s.ch, r, r.position, ReadN(r, 1));
    LexScientificSpec(s.table, s.ch, ReadN(r, 1), r.position);
  }

  /** A digit lookahead starts a number. */
  lemma {:induction false} NumberStart(s: Lexer)
    requires Valid(s) && !s.atEOF && IsDigit(s.ch)
    ensures NextToken(s) == LexNumber(s.table, s.ch, s.src.value, s.src.value.position)
  {
    assert SkipWhitespace(s.ch, s.src.value) == Ready(s.ch, s.src.value);
  }

  lemma {:induction false} NumberUnfold(t: Table, c: char, r: SR.Reader, start: int, r1: SR.Reader)
    requires SR.Valid(r) && TableOk(t) && SR.Read(r) == SR.Got('.', r1)
    ensures LexNumber(t, c, r, start) == LexScientific(t, c, r1, start)
  {
  }
}
