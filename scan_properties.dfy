/** What the scanner of advanceUntil does to plain fields, quoted fields and
    delimiters, proved about the value model in module Scan. */
module ScanProperties {
  import opened Results
  import opened JavaText
  import opened Scan

  // ---- The branches of one loop iteration ----

  /** A stopping lookahead wins over every other branch: the current
      character, whatever it is, is appended and the cursor moves onto the
      delimiter, which the next call consumes. */
  lemma BreakAppendsCurrent(text: string, s: LoopState)
    requires s.cursor < |text|
    requires (Lookahead(text, s.cursor) == ',' && !s.inQuote) || Lookahead(text, s.cursor) == '\n'
    ensures StepAt(text, s) == Break(s.(cursor := s.cursor + 1, acc := s.acc + [text[s.cursor]]))
    ensures Run(text, s) == s.(cursor := s.cursor + 1, acc := s.acc + [text[s.cursor]])
  {
  }

  /** Counters: consuming a comma outside quotes moves to the next column,
      consuming a newline (quoted or not) moves to column 1 of the next row,
      and no other character moves them. */
  lemma CounterRules(text: string, s: LoopState)
    requires s.cursor < |text|
    requires StepAt(text, s).Continue?
    ensures var t := StepAt(text, s).State();
      (text[s.cursor] == ',' && !s.inQuote ==> t.row == s.row && t.column == s.column + 1) &&
      (text[s.cursor] == '\n' ==> t.row == s.row + 1 && t.column == 1) &&
      (text[s.cursor] != '\n' && !(text[s.cursor] == ',' && !s.inQuote) ==>
        t.row == s.row && t.column == s.column)
  {
  }

  /** A comma outside quotes is consumed and counted as one column. */
  lemma RunOnComma(text: string, s: LoopState, n: LoopState)
    requires s.cursor < |text| && text[s.cursor] == ',' && !s.inQuote
    requires Lookahead(text, s.cursor) != ',' && Lookahead(text, s.cursor) != '\n'
    requires n == s.(cursor := s.cursor + 1, column := s.column + 1)
    ensures Run(text, s) == Run(text, n)
  {
    assert StepAt(text, s) == Continue(n);
  }

  /** A newline, quoted or not, is consumed: next row, column 1. */
  lemma RunOnNewline(text: string, s: LoopState, n: LoopState)
    requires s.cursor < |text| && text[s.cursor] == '\n'
    requires !(Lookahead(text, s.cursor) == ',' && !s.inQuote) && Lookahead(text, s.cursor) != '\n'
    requires n == s.(cursor := s.cursor + 1, row := s.row + 1, column := 1)
    ensures Run(text, s) == Run(text, n)
  {
    assert StepAt(text, s) == Continue(n);
  }

  /** An opening quote outside quotes is dropped and sets the quote flag. */
  lemma RunOnOpeningQuote(text: string, s: LoopState, n: LoopState)
    requires s.cursor < |text| && text[s.cursor] == '"' && !s.inQuote
    requires Lookahead(text, s.cursor) != ',' && Lookahead(text, s.cursor) != '\n'
    requires n == s.(cursor := s.cursor + 1, inQuote := true)
    ensures Run(text, s) == Run(text, n)
  {
    assert StepAt(text, s) == Continue(n);
  }

  /** Inside quotes a doubled quote emits one quote and consumes both. */
  lemma RunOnEscapedQuote(text: string, s: LoopState, n: LoopState)
    requires s.cursor + 1 < |text| && text[s.cursor] == '"' && text[s.cursor + 1] == '"' && s.inQuote
    requires n == s.(cursor := s.cursor + 2, acc := s.acc + ['"'])
    ensures Run(text, s) == Run(text, n)
  {
    assert StepAt(text, s) == Continue(n);
  }

  /** Inside quotes a lone quote is dropped and clears the quote flag. */
  lemma RunOnClosingQuote(text: string, s: LoopState, n: LoopState)
    requires s.cursor < |text| && text[s.cursor] == '"' && s.inQuote
    requires Lookahead(text, s.cursor) != '"' && Lookahead(text, s.cursor) != '\n'
    requires n == s.(cursor := s.cursor + 1, inQuote := false)
    ensures Run(text, s) == Run(text, n)
  {
    assert StepAt(text, s) == Continue(n);
  }

  /** Any other character that does not stop the scan is field content,
      appended verbatim (a comma included while in quotes). */
  lemma RunOnContent(text: string, s: LoopState, n: LoopState)
    requires s.cursor < |text| && text[s.cursor] != '"' && text[s.cursor] != '\n'
    requires s.inQuote || text[s.cursor] != ','
    requires Lookahead(text, s.cursor) != '\n' && (s.inQuote || Lookahead(text, s.cursor) != ',')
    requires n == s.(cursor := s.cursor + 1, acc := s.acc + [text[s.cursor]])
    ensures Run(text, s) == Run(text, n)
  {
    assert StepAt(text, s) == Continue(n);
  }

  // ---- How the accumulator enters the loop ----

  /** The loop never looks at what is already accumulated: running with a
      prefix in the accumulator ends in the same state, prefix kept. */
  lemma {:induction false} RunKeepsPrefix(text: string, s: LoopState, prefix: string)
    requires s.cursor <= |text|
    ensures Run(text, s.(acc := prefix + s.acc)) == Run(text, s).(acc := prefix + Run(text, s).acc)
    decreases |text| - s.cursor
  {
    if s.cursor < |text| {
      var s' := s.(acc := prefix + s.acc);
      match StepAt(text, s)
      case Break(t) =>
        assert StepAt(text, s') == Break(t.(acc := prefix + t.acc));
      case Continue(n) =>
        assert StepAt(text, s') == Continue(n.(acc := prefix + n.acc));
        RunKeepsPrefix(text, n, prefix);
    }
  }

  // ---- Plain (unquoted) fields ----

  /** A character that is field content outside quotes. */
  predicate IsPlain(c: char) {
    c != ',' && c != '\n' && c != '"'
  }

  predicate PlainBetween(text: string, i: nat, j: nat)
    requires i <= j <= |text|
  {
    forall k :: i <= k < j ==> IsPlain(text[k])
  }

  /** A field ends at the end of the text or before a comma or newline. */
  predicate EndsField(text: string, j: nat)
    requires j <= |text|
  {
    j == |text| || text[j] == ',' || text[j] == '\n'
  }

  /** Outside quotes the loop copies a run of plain characters verbatim and
      stops in front of the delimiter that ends it (or at the end). */
  lemma {:induction false} PlainRun(text: string, s: LoopState, j: nat)
    requires s.cursor < j <= |text| && !s.inQuote
    requires PlainBetween(text, s.cursor, j) && EndsField(text, j)
    ensures Run(text, s) == s.(cursor := j, acc := s.acc + text[s.cursor..j])
    decreases j - s.cursor
  {
    var c := s.cursor;
    if c + 1 == j {
      assert Lookahead(text, c) == ',' || Lookahead(text, c) == '\n' || j == |text|;
    } else {
      assert IsPlain(text[c + 1]);
      var n := s.(cursor := c + 1, acc := s.acc + [text[c]]);
      assert StepAt(text, s) == Continue(n);
      PlainRun(text, n, j);
      assert s.acc + [text[c]] + text[c + 1..j] == s.acc + text[c..j];
    }
  }

  /** A plain field at the cursor: it is returned trimmed, the cursor stops
      on the delimiter after it and row and column do not move. */
  lemma PlainField(text: string, p: Position, j: nat)
    requires p.cursor < j <= |text|
    requires PlainBetween(text, p.cursor, j) && EndsField(text, j)
    ensures ScanField(text, p) == Scanned(p.(cursor := j), Success(Trim(text[p.cursor..j])))
  {
    PlainRun(text, Start(p), j);
    assert Run(text, Start(p)) == LoopState(j, p.row, p.column, [] + text[p.cursor..j], false);
    assert [] + text[p.cursor..j] == text[p.cursor..j];
    assert Finish(text[p.cursor..j], false) == Success(Trim(text[p.cursor..j]));
  }

  /** A plain field after the comma left by the previous call: the comma is
      consumed and counted as one column. */
  lemma FieldAfterComma(text: string, p: Position, j: nat)
    requires p.cursor + 1 < j <= |text| && text[p.cursor] == ','
    requires PlainBetween(text, p.cursor + 1, j) && EndsField(text, j)
    ensures ScanField(text, p) ==
      Scanned(Position(j, p.row, p.column + 1), Success(Trim(text[p.cursor + 1..j])))
  {
    var s := Start(p);
    var n := s.(cursor := p.cursor + 1, column := p.column + 1);
    assert IsPlain(text[p.cursor + 1]);
    RunOnComma(text, s, n);
    PlainRun(text, n, j);
    var field := text[p.cursor + 1..j];
    assert Run(text, s) == LoopState(j, n.row, n.column, [] + field, false);
    assert [] + field == field;
    assert Finish(field, false) == Success(Trim(field));
  }

  /** A plain field after the newline left by the previous call: the newline
      is consumed, the row goes up by one and the column returns to 1. */
  lemma FieldAfterNewline(text: string, p: Position, j: nat)
    requires p.cursor + 1 < j <= |text| && text[p.cursor] == '\n'
    requires PlainBetween(text, p.cursor + 1, j) && EndsField(text, j)
    ensures ScanField(text, p) ==
      Scanned(Position(j, p.row + 1, 1), Success(Trim(text[p.cursor + 1..j])))
  {
    var s := Start(p);
    var n := s.(cursor := p.cursor + 1, row := p.row + 1, column := 1);
    assert IsPlain(text[p.cursor + 1]);
    RunOnNewline(text, s, n);
    PlainRun(text, n, j);
    var field := text[p.cursor + 1..j];
    assert Run(text, s) == LoopState(j, n.row, n.column, [] + field, false);
    assert [] + field == field;
    assert Finish(field, false) == Success(Trim(field));
  }

  // ---- Quoted fields (the doubled-quote escape of RFC 4180, section 2, rule 7) ----

  /** The body of a quoted field: every quote doubled. */
  function Escape(s: string): (e: string)
    ensures |e| >= |s|
    ensures s != [] ==> e != [] && e[0] == s[0]
  {
    if s == [] then []
    else (if s[0] == '"' then "\"\"" else [s[0]]) + Escape(s[1..])
  }

  /** A field in quotes, as a writer following RFC 4180 would emit it. */
  function Quoted(s: string): string {
    "\"" + Escape(s) + "\""
  }

  predicate NoNewline(s: string) {
    forall k :: 0 <= k < |s| ==> s[k] != '\n'
  }

  /** The width of the first escaped character of s. */
  function HeadWidth(s: string): nat
    requires s != []
  {
    if s[0] == '"' then 2 else 1
  }

  lemma EscapeWidth(s: string)
    requires s != []
    ensures HeadWidth(s) + |Escape(s[1..])| == |Escape(s)|
  {
  }

  lemma AppendHead(a: string, s: string)
    requires s != []
    ensures (a + [s[0]]) + s[1..] == a + s
  {
  }

  /** e occurs in text at index i. */
  predicate Matches(text: string, i: nat, e: string)
    ensures Matches(text, i, e) ==> i + |e| <= |text|
    decreases |e|
  {
    if e == [] then i <= |text|
    else i < |text| && text[i] == e[0] && Matches(text, i + 1, e[1..])
  }

  lemma {:induction false} MatchesRest(text: string, i: nat, head: string, rest: string)
    requires Matches(text, i, head + rest)
    ensures Matches(text, i + |head|, rest)
    decreases |head|
  {
    if head != [] {
      assert (head + rest)[1..] == head[1..] + rest;
      MatchesRest(text, i + 1, head[1..], rest);
    } else {
      assert head + rest == rest;
    }
  }

  lemma {:induction false} MatchesPrefix(text: string, i: nat, head: string, rest: string)
    requires Matches(text, i, head + rest)
    ensures Matches(text, i, head)
    ensures rest != [] ==> text[i + |head|] == rest[0]
    decreases |head|
  {
    if head != [] {
      assert (head + rest)[1..] == head[1..] + rest;
      MatchesPrefix(text, i + 1, head[1..], rest);
    } else {
      assert head + rest == rest;
    }
  }

  /** Every suffix of the text occurs where it starts. */
  lemma {:induction false} MatchesSuffix(text: string, i: nat)
    requires i <= |text|
    ensures Matches(text, i, text[i..])
    decreases |text| - i
  {
    if i < |text| {
      assert text[i..][1..] == text[i + 1..];
      MatchesSuffix(text, i + 1);
    }
  }

  /** The escaped body of s and then the closing quote, read character by
      character from index i: a doubled quote for each quote of s, any other
      character as itself. */
  predicate EscapedAt(text: string, i: nat, s: string)
    ensures EscapedAt(text, i, s) ==> i + |Escape(s)| < |text| && text[i + |Escape(s)|] == '"'
    decreases |s|
  {
    if s == [] then i < |text| && text[i] == '"'
    else if s[0] == '"' then
      i + 1 < |text| && text[i] == '"' && text[i + 1] == '"' && EscapedAt(text, i + 2, s[1..])
    else i < |text| && text[i] == s[0] && EscapedAt(text, i + 1, s[1..])
  }

  /** Escape(s) and a quote at i is the same as EscapedAt. */
  lemma {:induction false} MatchesEscaped(text: string, i: nat, s: string)
    requires Matches(text, i, Escape(s) + "\"")
    ensures EscapedAt(text, i, s)
    decreases |s|
  {
    var e := Escape(s) + "\"";
    if s == [] {
      assert e == "\"";
    } else if s[0] == '"' {
      assert e == "\"\"" + (Escape(s[1..]) + "\"");
      assert e[1..][1..] == Escape(s[1..]) + "\"";
      MatchesEscaped(text, i + 2, s[1..]);
    } else {
      assert e == [s[0]] + (Escape(s[1..]) + "\"");
      assert e[1..] == Escape(s[1..]) + "\"";
      MatchesEscaped(text, i + 1, s[1..]);
    }
  }

  /** The first character of an escaped body: a quote, or the first
      character of s. */
  lemma EscapedHead(text: string, i: nat, s: string)
    requires EscapedAt(text, i, s)
    ensures i < |text| && (text[i] == '"' || (s != [] && text[i] == s[0]))
  {
  }

  /** Inside quotes the loop turns the escaped body of s back into s and
      stops on the closing quote, still in quotes. */
  lemma {:induction false} QuotedRun(text: string, st: LoopState, s: string, t: LoopState)
    requires st.inQuote && NoNewline(s) && EscapedAt(text, st.cursor, s)
    requires t == LoopState(st.cursor + |Escape(s)|, st.row, st.column, st.acc + s, true)
    ensures Run(text, st) == Run(text, t)
    decreases |s|
  {
    if s == [] {
      assert st.acc + s == st.acc;
    } else {
      var c := st.cursor;
      var n := LoopState(c + HeadWidth(s), st.row, st.column, st.acc + [s[0]], true);
      EscapeWidth(s);
      AppendHead(st.acc, s);
      assert t == LoopState(n.cursor + |Escape(s[1..])|, n.row, n.column, n.acc + s[1..], true);
      assert NoNewline(s[1..]);
      if s[0] == '"' {
        RunOnEscapedQuote(text, st, n);
      } else {
        EscapedHead(text, c + 1, s[1..]);
        RunOnContent(text, st, n);
      }
      QuotedRun(text, n, s[1..], t);
    }
  }

  /** What a quoted field at the cursor puts in the text: the opening
      quote, a lookahead that does not stop the scan, and the escaped body
      with its closing quote. */
  lemma QuotedLayout(text: string, c: nat, s: string)
    requires NoNewline(s) && (s == [] || s[0] != ',')
    requires Matches(text, c, Quoted(s))
    ensures c < |text| && text[c] == '"'
    ensures Lookahead(text, c) != ',' && Lookahead(text, c) != '\n'
    ensures EscapedAt(text, c + 1, s)
    ensures text[c + 1 + |Escape(s)|] == '"'
  {
    var body := Escape(s) + "\"";
    assert Quoted(s) == "\"" + body;
    MatchesRest(text, c, "\"", body);
    MatchesEscaped(text, c + 1, s);
    EscapedHead(text, c + 1, s);
  }

  /** The opening quote and the escaped body of s: the loop is then on the
      closing quote, still in quotes, having accumulated s. A body starting
      with a comma is excluded: that comma as lookahead of the opening quote
      stops the scan. */
  lemma OpenQuoted(text: string, p: Position, s: string, t: LoopState)
    requires NoNewline(s) && (s == [] || s[0] != ',')
    requires Matches(text, p.cursor, Quoted(s))
    requires t == LoopState(p.cursor + 1 + |Escape(s)|, p.row, p.column, s, true)
    ensures t.cursor < |text| && text[t.cursor] == '"'
    ensures Run(text, Start(p)) == Run(text, t)
  {
    QuotedLayout(text, p.cursor, s);
    assert t.cursor < |text| && text[t.cursor] == '"';
    var n := LoopState(p.cursor + 1, p.row, p.column, [], true);
    assert [] + s == s;
    QuotedRun(text, n, s, t);
    RunOnOpeningQuote(text, Start(p), n);

  }

  /** A quoted field that ends the text, its content without a newline and
      not starting with a comma, decodes to its content: the doubled quotes
      collapse and the enclosing quotes are dropped. The call then decides
      as Finish does on that content: empty content is "no more data", and
      otherwise the content is returned trimmed. */
  lemma QuotedFieldAtEnd(text: string, p: Position, s: string)
    requires NoNewline(s) && (s == [] || s[0] != ',')
    requires Matches(text, p.cursor, Quoted(s)) && p.cursor + |Quoted(s)| == |text|
    ensures ScanField(text, p) == Scanned(p.(cursor := |text|), Finish(s, false))
  {
    var t := LoopState(p.cursor + 1 + |Escape(s)|, p.row, p.column, s, true);
    OpenQuoted(text, p, s, t);
    var u := LoopState(|text|, p.row, p.column, s, false);
    RunOnClosingQuote(text, t, u);
  }

  /** A quoted field followed by a newline, its content without a newline
      and not starting with a comma, fails: the newline is a stopping
      lookahead of the closing quote, so that quote is appended and the
      quote flag is never cleared. */
  lemma QuotedFieldBeforeNewline(text: string, p: Position, s: string)
    requires NoNewline(s) && (s == [] || s[0] != ',')
    requires Matches(text, p.cursor, Quoted(s) + "\n")
    ensures ScanField(text, p) == Scanned(p.(cursor := p.cursor + |Quoted(s)|), Failure(UnclosedQuote))
  {
    MatchesPrefix(text, p.cursor, Quoted(s), "\n");
    var t := LoopState(p.cursor + 1 + |Escape(s)|, p.row, p.column, s, true);
    OpenQuoted(text, p, s, t);
    BreakAppendsCurrent(text, t);
  }

  /** A quoted field followed by a comma, its content without a newline and
      not starting with a comma, does not end there: the quote flag is still
      set when that comma is the lookahead, so the scan goes on, and the
      content is glued to whatever the next field accumulates. */
  lemma QuotedFieldMergesWithNext(text: string, p: Position, s: string)
    requires NoNewline(s) && (s == [] || s[0] != ',')
    requires Matches(text, p.cursor, Quoted(s) + ",")
    ensures var next := Run(text, Start(p.(cursor := p.cursor + |Quoted(s)|)));
      Run(text, Start(p)) == next.(acc := s + next.acc)
  {
    MatchesPrefix(text, p.cursor, Quoted(s), ",");
    var t := LoopState(p.cursor + 1 + |Escape(s)|, p.row, p.column, s, true);
    OpenQuoted(text, p, s, t);
    var after := Start(p.(cursor := t.cursor + 1));
    var u := LoopState(t.cursor + 1, p.row, p.column, s, false);
    assert u == after.(acc := s + after.acc);
    RunOnClosingQuote(text, t, u);
    RunKeepsPrefix(text, after, s);
  }

  // ---- Whole calls ----

  /** Called at the end of the text, advanceUntil fails with "no more data"
      and moves nothing. */
  lemma AtEndNoMoreData(text: string, p: Position)
    requires p.cursor == |text|
    ensures ScanField(text, p) == Scanned(p, Failure(NoMoreData))
  {
  }

  /** The call fails with an unclosed quote exactly when it accumulated
      something and was left in quotes; "no more data" takes precedence. */
  lemma FailsIffInQuotes(text: string, p: Position)
    requires p.cursor <= |text|
    ensures var t := Run(text, Start(p));
      (ScanField(text, p).result == Failure(NoMoreData) <==> t.acc == []) &&
      (ScanField(text, p).result == Failure(UnclosedQuote) <==> t.acc != [] && t.inQuote) &&
      (ScanField(text, p).result.Success? ==> ScanField(text, p).result.value == Trim(t.acc))
  {
  }

  /** A returned field is already trimmed: no blank at either end, so
      trimming it again (as a caller might) changes nothing. */
  lemma FieldIsTrimmed(text: string, p: Position)
    requires p.cursor <= |text|
    requires ScanField(text, p).result.Success?
    ensures var v := ScanField(text, p).result.value;
      Trim(v) == v && (v != [] ==> !IsSpace(v[0]) && !IsSpace(v[|v| - 1]))
  {
    TrimIdempotent(Run(text, Start(p)).acc);
  }
}
