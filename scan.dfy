/** The field scanner behind CSVParser.advanceUntil, stated on values: one
    step of its loop, the whole loop, and the decision it takes after the
    loop. The class Csv.Parser runs the same loop on its fields and is proved
    to agree with ScanField. */
module Scan {
  import opened Results
  import opened JavaText

  /** What peekNextChar returns when there is no next character. */
  const NUL: char := '\0'

  /** The two IllegalStateExceptions of advanceUntil. */
  datatype ScanError =
    | NoMoreData     // "No more data to read from the CSV text."
    | UnclosedQuote  // "Unclosed quote in CSV text."

  /** The parser's position: cursor index and 1-based row and column. */
  datatype Position = Position(cursor: nat, row: int, column: int)

  /** The variables of the scanning loop: the position, the accumulated
      field (the StringBuilder) and the local quote flag. */
  datatype LoopState = LoopState(cursor: nat, row: int, column: int, acc: string, inQuote: bool)

  /** One iteration either continues the loop or leaves it by `break`. */
  datatype Step = Continue(next: LoopState) | Break(last: LoopState) {
    function State(): LoopState {
      match this
      case Continue(s) => s
      case Break(s) => s
    }
  }

  /** The position after a call and what the call returned or threw. */
  datatype Scanned = Scanned(pos: Position, result: Result<string, ScanError>)

  /** The position invariant the parser keeps: row and column are 1-based,
      and together they have grown by no more than the cursor has, one step
      per consumed character (so neither can overflow a Java int). */
  predicate WellPlaced(p: Position) {
    p.row >= 1 && p.column >= 1 && p.row + p.column <= p.cursor + 2
  }

  predicate IsStructural(c: char) {
    c == ',' || c == '\n' || c == '"'
  }

  /** peekNextChar with the bound the lookahead needs: the character after
      the cursor, or NUL when there is none. */
  function Lookahead(text: string, cursor: nat): (c: char)
    ensures cursor + 1 < |text| ==> c == text[cursor + 1]
    ensures cursor + 1 >= |text| ==> c == NUL
    ensures IsStructural(c) ==> cursor + 1 < |text|
  {
    if cursor + 1 < |text| then text[cursor + 1] else NUL
  }

  /** peekNextChar as written: it tests `cursor >= length` but reads
      `charAt(cursor + 1)`; None stands for the StringIndexOutOfBoundsException
      thrown when the cursor is on the last character. */
  function PeekAsWritten(text: string, cursor: nat): (r: Option<char>)
    ensures r.None? <==> cursor + 1 == |text|
  {
    if cursor >= |text| then Some(NUL)
    else if cursor + 1 < |text| then Some(text[cursor + 1])
    else None
  }

  /** Wherever the code as written returns, the guarded lookahead returns the
      same character. */
  lemma LookaheadAgreesWithSource(text: string, cursor: nat)
    requires PeekAsWritten(text, cursor).Some?
    ensures PeekAsWritten(text, cursor).value == Lookahead(text, cursor)
  {
  }

  /** A one-character text makes the source's first lookahead throw, where
      the guarded lookahead gives NUL and the scan returns the character. */
  lemma PeekThrowsOnLastCharacter()
    ensures PeekAsWritten("a", 0).None?
    ensures Lookahead("a", 0) == NUL
    ensures ScanField("a", Position(0, 1, 1)) == Scanned(Position(1, 1, 1), Success("a"))
  {
  }

  /** One iteration of the loop of advanceUntil, branch by branch. */
  function StepAt(text: string, s: LoopState): (r: Step)
    requires s.cursor < |text|
    ensures s.cursor < r.State().cursor <= |text|
  {
    var c := text[s.cursor];
    var nc := Lookahead(text, s.cursor);
    if (nc == ',' && !s.inQuote) || nc == '\n' then
      Break(s.(cursor := s.cursor + 1, acc := s.acc + [c]))
    else if c == '"' && !s.inQuote then
      Continue(s.(cursor := s.cursor + 1, inQuote := true))
    else if c == '"' && s.inQuote then
      if nc == '"' then Continue(s.(cursor := s.cursor + 2, acc := s.acc + [c]))
      else Continue(s.(cursor := s.cursor + 1, inQuote := false))
    else if c == ',' && !s.inQuote then
      Continue(s.(cursor := s.cursor + 1, column := s.column + 1))
    else if c == '\n' then
      Continue(s.(cursor := s.cursor + 1, row := s.row + 1, column := 1))
    else
      Continue(s.(cursor := s.cursor + 1, acc := s.acc + [c]))
  }

  /** What one iteration keeps: it consumes one character, or two for an
      escaped quote, appends at most the current character, never lowers the
      row, keeps the column 1-based, moves row and column together by no more
      than it moves the cursor, and breaks exactly on a comma lookahead
      outside quotes or a newline lookahead. */
  lemma StepInvariant(text: string, s: LoopState)
    requires s.cursor < |text|
    ensures var t := StepAt(text, s).State();
      (t.cursor == s.cursor + 1 ||
        (t.cursor == s.cursor + 2 && s.inQuote && text[s.cursor] == '"' && text[s.cursor + 1] == '"')) &&
      (t.acc == s.acc || t.acc == s.acc + [text[s.cursor]]) &&
      t.row >= s.row &&
      (s.column >= 1 ==> t.column >= 1 && t.row + t.column - t.cursor <= s.row + s.column - s.cursor)
    ensures StepAt(text, s).Break? <==>
      (Lookahead(text, s.cursor) == ',' && !s.inQuote) || Lookahead(text, s.cursor) == '\n'
  {
  }

  /** The state the loop ends in when it leaves by `break`: the cursor is on
      the delimiter that stopped the scan (a newline, or a comma outside
      quotes), and the character before it was the last one appended. */
  predicate StoppedOnDelimiter(text: string, t: LoopState) {
    0 < t.cursor < |text| &&
    (text[t.cursor] == '\n' || (text[t.cursor] == ',' && !t.inQuote)) &&
    t.acc != [] && t.acc[|t.acc| - 1] == text[t.cursor - 1]
  }

  /** The whole loop of advanceUntil, from state s to the state it exits in. */
  function Run(text: string, s: LoopState): (t: LoopState)
    requires s.cursor <= |text|
    ensures s.cursor <= t.cursor <= |text|
    decreases |text| - s.cursor
  {
    if s.cursor == |text| then s
    else
      match StepAt(text, s)
      case Break(t) => t
      case Continue(n) => Run(text, n)
  }

  /** What the loop keeps on every path: the cursor stays in bounds and moves
      forward whenever there is input, row and column only grow as the cursor
      does, the accumulator only grows by appending, by at most one character
      per consumed character, and an exit before the end of the text is a
      `break` on a delimiter that is left for the next call. */
  lemma {:induction false} RunInvariant(text: string, s: LoopState)
    requires s.cursor <= |text|
    ensures var t := Run(text, s);
      (s.cursor < |text| ==> s.cursor < t.cursor) &&
      t.row >= s.row &&
      (s.column >= 1 ==> t.column >= 1 && t.row + t.column - t.cursor <= s.row + s.column - s.cursor) &&
      |s.acc| <= |t.acc| && t.acc[..|s.acc|] == s.acc &&
      |t.acc| - |s.acc| <= t.cursor - s.cursor &&
      (t.cursor == |text| || StoppedOnDelimiter(text, t))
    decreases |text| - s.cursor
  {
    if s.cursor < |text| {
      StepInvariant(text, s);
      match StepAt(text, s)
      case Break(t) =>
      case Continue(n) =>
        RunInvariant(text, n);
    }
  }

  /** The decision after the loop: an empty (untrimmed) accumulator is
      "no more data", then an unclosed quote is an error, and otherwise the
      trimmed field is returned. */
  function Finish(acc: string, inQuote: bool): (r: Result<string, ScanError>)
    ensures r == Failure(NoMoreData) <==> acc == []
    ensures r == Failure(UnclosedQuote) <==> acc != [] && inQuote
    ensures r.Success? <==> acc != [] && !inQuote
    ensures r.Success? ==> r.value == Trim(acc)
  {
    if acc == [] then Failure(NoMoreData)
    else if inQuote then Failure(UnclosedQuote)
    else Success(Trim(acc))
  }

  /** The loop's state on entry: empty accumulator, not in quotes. */
  function Start(p: Position): LoopState {
    LoopState(p.cursor, p.row, p.column, [], false)
  }

  /** advanceUntil: the new position and the result of one call. */
  function ScanField(text: string, p: Position): (r: Scanned)
    requires p.cursor <= |text|
    ensures p.cursor <= r.pos.cursor <= |text|
    ensures p.cursor < |text| ==> p.cursor < r.pos.cursor
    ensures WellPlaced(p) ==> WellPlaced(r.pos) && r.pos.row >= p.row
    ensures p.cursor == |text| ==> r == Scanned(p, Failure(NoMoreData))
    ensures r.pos.cursor < |text| ==> r.result != Failure(NoMoreData)
    ensures r.result.Success? ==> |r.result.value| <= r.pos.cursor - p.cursor
  {
    var t := Run(text, Start(p));
    RunInvariant(text, Start(p));
    Scanned(Position(t.cursor, t.row, t.column), Finish(t.acc, t.inQuote))
  }
}
