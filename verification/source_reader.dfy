/**
 * The source reader: a small state machine over the lines of the input that
 * hands out one character per `Read`, reports the end of every line as one
 * space, and tracks the line number and the column of the character just
 * returned. The `BufferedReader` it wraps is the sequence `pending` of lines
 * not yet fetched, without line terminators.
 */
module SourceReader {
  import opened Common

  /**
   * Reader state. `lineNumber` and `position` are what `getLineno` and
   * `getPosition` return; `priorEndLine` says the last character handed out
   * ended a line, so the next read fetches a new one; `line` is the line
   * being read (None once the input is exhausted).
   */
  datatype Reader = Reader(
    pending: seq<string>,
    closed: bool,
    lineNumber: int,
    position: int,
    priorEndLine: bool,
    line: Option<string>)

  /** Outcome of one `read`: a character, or the IOException at end of input. */
  datatype ReadResult = Got(c: char, next: Reader) | Failed(next: Reader)

  /** A character together with the line number and column reported for it. */
  datatype Cell = Cell(c: char, line: int, col: int)

  /** A reader over `lines`, nothing read yet. */
  function Open(lines: seq<string>): Reader {
    Reader(lines, false, 0, 0, true, None)
  }

  /** States reachable from `Open`: inside a line the column stays within it. */
  ghost predicate Valid(r: Reader) {
    && (!r.priorEndLine && r.line.Some? ==> -1 <= r.position < |r.line.value|)
    && (!r.priorEndLine && r.line.None? ==> r.pending == [])
  }

  /** Characters (end-of-line spaces included) in the given lines. */
  function Total(ls: seq<string>): nat {
    if |ls| == 0 then 0 else |ls[0]| + 1 + Total(ls[1..])
  }

  /** How many more reads succeed. */
  function Remaining(r: Reader): nat
    requires Valid(r)
  {
    (if !r.priorEndLine && r.line.Some? then |r.line.value| - r.position else 0)
    + (if r.closed then 0 else Total(r.pending))
  }

  /**
   * `read`: fetch a new line when the previous one has ended (counting it),
   * then return its next character, or one space for its end; fail once no
   * line is left. A closed stream fails at the fetch.
   */
  function Read(r: Reader): (res: ReadResult)
    requires Valid(r)
    ensures Valid(res.next)
    ensures res.Got? <==> Remaining(r) > 0
    ensures res.Got? ==> Remaining(res.next) == Remaining(r) - 1
  {
    if r.priorEndLine && r.closed then
      Failed(r.(lineNumber := r.lineNumber + 1, position := -1))
    else
      var r1 :=
        if !r.priorEndLine then r
        else if |r.pending| == 0 then
          r.(lineNumber := r.lineNumber + 1, position := -1, line := None, priorEndLine := false)
        else
          r.(lineNumber := r.lineNumber + 1, position := -1, line := Some(r.pending[0]),
             pending := r.pending[1..], priorEndLine := false);
      match r1.line
      case None => Failed(r1)
      case Some(l) =>
        if |l| == 0 then Got(' ', r1.(priorEndLine := true))
        else if r1.position + 1 >= |l| then
          Got(' ', r1.(position := r1.position + 1, priorEndLine := true))
        else Got(l[r1.position + 1], r1.(position := r1.position + 1))
  }

  /** `close`: the stream refuses to deliver further lines. */
  function Close(r: Reader): (c: Reader)
    ensures Valid(r) ==> Valid(c)
    ensures Valid(r) ==>
      Remaining(c) == if !r.priorEndLine && r.line.Some? then |r.line.value| - r.position else 0
  {
    r.(closed := true)
  }

  /** Every character the reader will still hand out, with the line and column it reports. */
  function Drain(r: Reader): (cs: seq<Cell>)
    requires Valid(r)
    ensures |cs| == Remaining(r)
    decreases Remaining(r)
  {
    match Read(r)
    case Failed(_) => []
    case Got(c, r') => [Cell(c, r'.lineNumber, r'.position)] + Drain(r')
  }

  /**
   * Reference layout of line `l` numbered `n` from column `from` on: each
   * character at its 0-based column, then one space for the end of the line,
   * at column |l| (or -1 for an empty line, whose column never advances).
   */
  function LineCells(l: string, n: int, from: nat): (cs: seq<Cell>)
    requires from <= |l|
    decreases |l| - from
  {
    if from == |l| then [Cell(' ', n, if |l| == 0 then -1 else |l|)]
    else [Cell(l[from], n, from)] + LineCells(l, n, from + 1)
  }

  /** Reference layout of the lines `ls`, the first numbered `n`. */
  function Layout(ls: seq<string>, n: int): seq<Cell> {
    if |ls| == 0 then [] else LineCells(ls[0], n, 0) + Layout(ls[1..], n + 1)
  }

  /** What the layout says is still to come in reader state `r`. */
  function Upcoming(r: Reader): seq<Cell>
    requires Valid(r)
  {
    (if !r.priorEndLine && r.line.Some? then LineCells(r.line.value, r.lineNumber, r.position + 1) else [])
    + (if r.closed then [] else Layout(r.pending, r.lineNumber + 1))
  }

  /** One successful read takes the first cell of the layout. */
  lemma {:induction false} UpcomingStep(r: Reader)
    requires Valid(r) && Read(r).Got?
    ensures var r' := Read(r).next;
      Upcoming(r) == [Cell(Read(r).c, r'.lineNumber, r'.position)] + Upcoming(r')
  {
    if !r.priorEndLine {
      InLineStep(r);
    } else {
      FetchStep(r);
    }
  }

  lemma {:induction false} InLineStep(r: Reader)
    requires Valid(r) && !r.priorEndLine && Read(r).Got?
    ensures var r' := Read(r).next;
      Upcoming(r) == [Cell(Read(r).c, r'.lineNumber, r'.position)] + Upcoming(r')
  {
    var l := r.line.value;
    var p := r.position;
    if p + 1 == |l| {
      var r' := r.(position := if |l| == 0 then p else p + 1, priorEndLine := true);
      assert Read(r) == Got(' ', r');
      LineEndStep(r, r');
    } else {
      var r' := r.(position := p + 1);
      assert Read(r) == Got(l[p + 1], r');
      LineCharStep(r, r');
    }
  }

  lemma {:induction false} LineEndStep(r: Reader, r': Reader)
    requires Valid(r) && !r.priorEndLine && r.line.Some? && r.position + 1 == |r.line.value|
    requires r' == r.(position := if |r.line.value| == 0 then r.position else r.position + 1, priorEndLine := true)
    ensures Upcoming(r) == [Cell(' ', r.lineNumber, r'.position)] + Upcoming(r')
  {
    assert LineCells(r.line.value, r.lineNumber, r.position + 1) == [Cell(' ', r.lineNumber, r'.position)];
  }

  lemma {:induction false} LineCharStep(r: Reader, r': Reader)
    requires Valid(r) && !r.priorEndLine && r.line.Some? && r.position + 1 < |r.line.value|
    requires r' == r.(position := r.position + 1)
    ensures Upcoming(r) == [Cell(r.line.value[r'.position], r.lineNumber, r'.position)] + Upcoming(r')
  {
    var l := r.line.value;
    var n := r.lineNumber;
    var p := r.position;
    var tail := if r.closed then [] else Layout(r.pending, n + 1);
    var rest := LineCells(l, n, p + 2);
    assert LineCells(l, n, p + 1) == [Cell(l[p + 1], n, p + 1)] + rest;
    assert Upcoming(r) == LineCells(l, n, p + 1) + tail;
    assert Upcoming(r') == rest + tail;
    ConcatAssoc([Cell(l[p + 1], n, p + 1)], rest, tail);
  }

  lemma {:induction false} ConcatAssoc<T>(a: seq<T>, b: seq<T>, c: seq<T>)
    ensures (a + b) + c == a + (b + c)
  {
  }

  lemma {:induction false} FetchStep(r: Reader)
    requires Valid(r) && r.priorEndLine && Read(r).Got?
    ensures var r' := Read(r).next;
      Upcoming(r) == [Cell(Read(r).c, r'.lineNumber, r'.position)] + Upcoming(r')
  {
    var l := r.pending[0];
    if |l| == 0 {
      var r' := r.(lineNumber := r.lineNumber + 1, position := -1, line := Some(l),
                   pending := r.pending[1..], priorEndLine := true);
      assert Read(r) == Got(' ', r');
      FetchEmpty(r, r');
    } else {
      var r' := r.(lineNumber := r.lineNumber + 1, position := 0, line := Some(l),
                   pending := r.pending[1..], priorEndLine := false);
      assert Read(r) == Got(l[0], r');
      FetchChar(r, r');
    }
  }

  /** Fetching an empty line delivers its end-of-line space at column -1. */
  lemma {:induction false} FetchEmpty(r: Reader, r': Reader)
    requires Valid(r) && r.priorEndLine && !r.closed && |r.pending| > 0 && |r.pending[0]| == 0
    requires r' == r.(lineNumber := r.lineNumber + 1, position := -1, line := Some(r.pending[0]),
                      pending := r.pending[1..], priorEndLine := true)
    ensures Upcoming(r) == [Cell(' ', r'.lineNumber, -1)] + Upcoming(r')
  {
    FetchLayout(r);
    assert LineCells(r.pending[0], r.lineNumber + 1, 0) == [Cell(' ', r'.lineNumber, -1)];
  }

  lemma {:induction false} FetchLayout(r: Reader)
    requires Valid(r) && r.priorEndLine && !r.closed && |r.pending| > 0
    ensures Upcoming(r) == LineCells(r.pending[0], r.lineNumber + 1, 0) + Layout(r.pending[1..], r.lineNumber + 2)
  {
  }

  lemma {:induction false} FetchChar(r: Reader, r': Reader)
    requires Valid(r) && r.priorEndLine && !r.closed && |r.pending| > 0 && |r.pending[0]| > 0
    requires r' == r.(lineNumber := r.lineNumber + 1, position := 0, line := Some(r.pending[0]),
                      pending := r.pending[1..], priorEndLine := false)
    ensures Upcoming(r) == [Cell(r.pending[0][0], r'.lineNumber, 0)] + Upcoming(r')
  {
    FetchLayout(r);
    var l := r.pending[0];
    var rest := Layout(r.pending[1..], r.lineNumber + 2);
    assert Upcoming(r') == LineCells(l, r.lineNumber + 1, 1) + rest;
    assert LineCells(l, r.lineNumber + 1, 0) == [Cell(l[0], r.lineNumber + 1, 0)] + LineCells(l, r.lineNumber + 1, 1);
    ConcatAssoc([Cell(l[0], r.lineNumber + 1, 0)], LineCells(l, r.lineNumber + 1, 1), rest);
  }

  /** A failing read leaves nothing in the layout. */
  lemma {:induction false} UpcomingEmpty(r: Reader)
    requires Valid(r) && Read(r).Failed?
    ensures Upcoming(r) == []
  {
  }

  /** The characters a reader hands out are exactly those of the reference layout. */
  lemma {:induction false} DrainIsUpcoming(r: Reader)
    requires Valid(r)
    ensures Drain(r) == Upcoming(r)
    decreases Remaining(r)
  {
    match Read(r)
    case Failed(r') =>
      UpcomingEmpty(r);
    case Got(c, r') =>
      DrainIsUpcoming(r');
      UpcomingStep(r);
  }

  /**
   * Reading a whole input: line i (from 1) delivers its characters at columns
   * 0, 1, ... followed by one space that still reports line i; nothing else.
   */
  lemma {:induction false} ReadsFollowLayout(lines: seq<string>)
    ensures Drain(Open(lines)) == Layout(lines, 1)
  {
    DrainIsUpcoming(Open(lines));
  }

  /** Once a read has failed, every later read fails too. */
  lemma {:induction false} FailureIsFinal(r: Reader)
    requires Valid(r) && Read(r).Failed?
    ensures Read(Read(r).next).Failed?
  {
  }

  /** After `close`, the reader finishes at most the current line and fetches no other. */
  lemma {:induction false} ClosedReaderFetchesNoLine(r: Reader)
    requires Valid(r)
    ensures Drain(Close(r))
         == (if !r.priorEndLine && r.line.Some?
             then LineCells(r.line.value, r.lineNumber, r.position + 1) else [])
  {
    DrainIsUpcoming(Close(r));
  }
}
