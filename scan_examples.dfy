/** Worked calls of advanceUntil and of the getters' conversions on small
    texts, each derived from the general lemmas about the scanner. */
module ScanExamples {
  import opened Results
  import opened JavaText
  import opened Scan
  import opened ScanProperties
  import opened Csv

  /** "a,b,c": three fields, each call consuming the comma the previous one
      stopped on, then "no more data". */
  lemma SimpleRecord()
    ensures ScanField("a,b,c", Position(0, 1, 1)) == Scanned(Position(1, 1, 1), Success("a"))
    ensures ScanField("a,b,c", Position(1, 1, 1)) == Scanned(Position(3, 1, 2), Success("b"))
    ensures ScanField("a,b,c", Position(3, 1, 2)) == Scanned(Position(5, 1, 3), Success("c"))
    ensures ScanField("a,b,c", Position(5, 1, 3)) == Scanned(Position(5, 1, 3), Failure(NoMoreData))
  {
    RecordFirstField();
    RecordSecondField();
    RecordThirdField();
    AtEndNoMoreData("a,b,c", Position(5, 1, 3));
  }

  lemma RecordFirstField()
    ensures ScanField("a,b,c", Position(0, 1, 1)) == Scanned(Position(1, 1, 1), Success("a"))
  {
    var text := "a,b,c";
    assert text[0..1] == "a";
    TrimNoSpace("a");
    PlainField(text, Position(0, 1, 1), 1);
  }

  lemma RecordSecondField()
    ensures ScanField("a,b,c", Position(1, 1, 1)) == Scanned(Position(3, 1, 2), Success("b"))
  {
    var text := "a,b,c";
    assert text[2..3] == "b";
    TrimNoSpace("b");
    FieldAfterComma(text, Position(1, 1, 1), 3);
  }

  lemma RecordThirdField()
    ensures ScanField("a,b,c", Position(3, 1, 2)) == Scanned(Position(5, 1, 3), Success("c"))
  {
    var text := "a,b,c";
    assert text[4..5] == "c";
    TrimNoSpace("c");
    FieldAfterComma(text, Position(3, 1, 2), 5);
  }

  /** "a,b\nc,d": the newline the second call stopped on moves the third to
      row 2, column 1, and the comma after "c" to column 2. */
  lemma SecondRow()
    ensures ScanField("a,b\nc,d", Position(3, 1, 2)) == Scanned(Position(5, 2, 1), Success("c"))
    ensures ScanField("a,b\nc,d", Position(5, 2, 1)) == Scanned(Position(7, 2, 2), Success("d"))
  {
    SecondRowFirstField();
    SecondRowSecondField();
  }

  lemma SecondRowFirstField()
    ensures ScanField("a,b\nc,d", Position(3, 1, 2)) == Scanned(Position(5, 2, 1), Success("c"))
  {
    var text := "a,b\nc,d";
    assert text[4..5] == "c";
    TrimNoSpace("c");
    FieldAfterNewline(text, Position(3, 1, 2), 5);
  }

  lemma SecondRowSecondField()
    ensures ScanField("a,b\nc,d", Position(5, 2, 1)) == Scanned(Position(7, 2, 2), Success("d"))
  {
    var text := "a,b\nc,d";
    assert text[6..7] == "d";
    TrimNoSpace("d");
    FieldAfterComma(text, Position(5, 2, 1), 7);
  }

  /** A doubled quote inside quotes is one quote of the field. */
  lemma EscapedQuote()
    ensures ScanField("\"a\"\"b\"", Position(0, 1, 1)) == Scanned(Position(6, 1, 1), Success("a\"b"))
  {
    var text, s := "\"a\"\"b\"", "a\"b";
    assert Escape(s) == "a\"\"b";
    assert Quoted(s) == text;
    MatchesSuffix(text, 0);
    assert text[0..] == text;
    TrimNoSpace(s);
    QuotedFieldAtEnd(text, Position(0, 1, 1), s);
  }

  /** A quote that is never closed. */
  lemma UnclosedAtEnd()
    ensures ScanField("\"abc", Position(0, 1, 1)) == Scanned(Position(4, 1, 1), Failure(UnclosedQuote))
  {
    var text := "\"abc";
    RunOnOpeningQuote(text, LoopState(0, 1, 1, [], false), LoopState(1, 1, 1, [], true));
    RunOnContent(text, LoopState(1, 1, 1, [], true), LoopState(2, 1, 1, "a", true));
    RunOnContent(text, LoopState(2, 1, 1, "a", true), LoopState(3, 1, 1, "ab", true));
    RunOnContent(text, LoopState(3, 1, 1, "ab", true), LoopState(4, 1, 1, "abc", true));
  }

  /** Empty quotes accumulate nothing, so the call is "no more data". */
  lemma EmptyQuotedField()
    ensures ScanField("\"\"", Position(0, 1, 1)) == Scanned(Position(2, 1, 1), Failure(NoMoreData))
  {
    var text := "\"\"";
    assert Escape("") == "";
    assert Quoted("") == text;
    MatchesSuffix(text, 0);
    assert text[0..] == text;
    QuotedFieldAtEnd(text, Position(0, 1, 1), "");
  }

  /** A lone quote opens quotes and accumulates nothing: the empty check
      comes before the quote check, so it is "no more data". */
  lemma LoneQuote()
    ensures ScanField("\"", Position(0, 1, 1)) == Scanned(Position(1, 1, 1), Failure(NoMoreData))
  {
    RunOnOpeningQuote("\"", LoopState(0, 1, 1, [], false), LoopState(1, 1, 1, [], true));
  }

  /** A quoted field before a comma runs on into the next field. */
  lemma QuotedGluedToNext()
    ensures ScanField("\"a\",b,c", Position(0, 1, 1)) == Scanned(Position(5, 1, 2), Success("ab"))
  {
    var text := "\"a\",b,c";
    TrimNoSpace("ab");
    assert Finish("ab", false) == Success("ab");
    assert "a" + "b" == "ab";
    QuotedThenComma();
    assert |Quoted("a")| == 3;
    PlainAfterComma();
    assert Start(Position(3, 1, 1)) == LoopState(3, 1, 1, [], false);
    QuotedFieldMergesWithNext(text, Position(0, 1, 1), "a");
    assert Run(text, Start(Position(0, 1, 1))) == LoopState(5, 1, 2, "ab", false);
  }

  lemma QuotedThenComma()
    ensures Matches("\"a\",b,c", 0, Quoted("a") + ",")
  {
    var text := "\"a\",b,c";
    assert Escape("a") == "a";
    MatchesSuffix(text, 0);
    assert text[0..] == Quoted("a") + "," + text[4..];
    MatchesPrefix(text, 0, Quoted("a") + ",", text[4..]);
  }

  lemma PlainAfterComma()
    ensures Run("\"a\",b,c", LoopState(3, 1, 1, [], false)) == LoopState(5, 1, 2, "b", false)
  {
    var text := "\"a\",b,c";
    RunOnComma(text, LoopState(3, 1, 1, [], false), LoopState(4, 1, 2, [], false));
    PlainRun(text, LoopState(4, 1, 2, [], false), 5);
    assert [] + text[4..5] == "b";
  }

  /** A quoted field before a newline keeps its closing quote and fails. */
  lemma QuotedThenNewline()
    ensures ScanField("\"a\"\nb", Position(0, 1, 1)) == Scanned(Position(3, 1, 1), Failure(UnclosedQuote))
  {
    var text := "\"a\"\nb";
    assert Escape("a") == "a";
    MatchesSuffix(text, 0);
    assert text[0..] == Quoted("a") + "\n" + "b";
    MatchesPrefix(text, 0, Quoted("a") + "\n", "b");
    QuotedFieldBeforeNewline(text, Position(0, 1, 1), "a");
  }

  /** A quoted field that starts with a comma stops at once: the opening
      quote is the current character of a break, so it becomes the field. */
  lemma QuotedCommaFirst()
    ensures ScanField("\",b\"", Position(0, 1, 1)) == Scanned(Position(1, 1, 1), Success("\""))
  {
    var text := "\",b\"";
    BreakAppendsCurrent(text, LoopState(0, 1, 1, [], false));
    assert [] + ['"'] == "\"";
    TrimNoSpace("\"");
  }

  /** Unless the content starts with a comma, a newline after a content
      character inside quotes stops the scan too, so such a quoted field that
      spans lines fails with an unclosed quote. */
  lemma QuotedNewlineInside()
    ensures ScanField("\"a\nb\"", Position(0, 1, 1)) == Scanned(Position(2, 1, 1), Failure(UnclosedQuote))
  {
    var text := "\"a\nb\"";
    RunOnOpeningQuote(text, LoopState(0, 1, 1, [], false), LoopState(1, 1, 1, [], true));
    BreakAppendsCurrent(text, LoopState(1, 1, 1, [], true));
    assert [] + ['a'] == "a";
  }

  /** A newline right after the opening quote is that quote's lookahead, so
      the scan stops before the quote flag is set and returns a lone quote. */
  lemma QuotedNewlineFirst()
    ensures ScanField("\"\nb\"", Position(0, 1, 1)) == Scanned(Position(1, 1, 1), Success("\""))
  {
    var text := "\"\nb\"";
    BreakAppendsCurrent(text, LoopState(0, 1, 1, [], false));
    assert [] + ['"'] == "\"";
    TrimNoSpace("\"");
  }

  /** A doubled quote consumes two characters without testing the second
      one's lookahead, so a newline right after it is consumed as a line
      break inside quotes: the field spans two rows and succeeds. */
  lemma NewlineAfterEscapedQuote()
    ensures ScanField("\"a\"\"\nb\"", Position(0, 1, 1)) == Scanned(Position(7, 2, 1), Success("a\"b"))
  {
    var text := "\"a\"\"\nb\"";
    assert text[1] == 'a' && text[2] == '"' && text[3] == '"' && text[4] == '\n' && text[5] == 'b' && text[6] == '"';
    RunOnOpeningQuote(text, LoopState(0, 1, 1, [], false), LoopState(1, 1, 1, [], true));
    RunOnContent(text, LoopState(1, 1, 1, [], true), LoopState(2, 1, 1, "a", true));
    RunOnEscapedQuote(text, LoopState(2, 1, 1, "a", true), LoopState(4, 1, 1, "a\"", true));
    RunOnNewline(text, LoopState(4, 1, 1, "a\"", true), LoopState(5, 2, 1, "a\"", true));
    RunOnContent(text, LoopState(5, 2, 1, "a\"", true), LoopState(6, 2, 1, "a\"b", true));
    RunOnClosingQuote(text, LoopState(6, 2, 1, "a\"b", true), LoopState(7, 2, 1, "a\"b", false));
    assert Run(text, Start(Position(0, 1, 1))) == LoopState(7, 2, 1, "a\"b", false);
    TrimNoSpace("a\"b");
  }

  /** A field of blanks is not "no more data": emptiness is checked before
      the trim. */
  lemma BlankField()
    ensures ScanField("  ,x", Position(0, 1, 1)) == Scanned(Position(2, 1, 1), Success(""))
  {
    PlainField("  ,x", Position(0, 1, 1), 2);
    assert "  ,x"[0..2] == "  ";
  }

  /** Between two commas: the first is the current character of a break, so
      it becomes the field. */
  lemma CommaAsField()
    ensures ScanField("a,,c", Position(1, 1, 1)) == Scanned(Position(2, 1, 1), Success(","))
  {
    BreakAppendsCurrent("a,,c", LoopState(1, 1, 1, [], false));
    assert [] + [','] == ",";
    TrimNoSpace(",");
  }

  /** Blanks around a field are trimmed away. */
  lemma PaddedField()
    ensures ScanField(" 42 ", Position(0, 1, 1)) == Scanned(Position(4, 1, 1), Success("42"))
  {
    var text := " 42 ";
    assert text[0..4] == " " + "42" + " ";
    TrimPadded(" ", "42", " ");
    assert Trim(text[0..4]) == "42";
    PlainField(text, Position(0, 1, 1), 4);
  }

  /** getInt of the fields "42" and "4x". */
  lemma Numbers()
    ensures IntegerOf("42", INT_MIN, INT_MAX) == Success(42)
    ensures IntegerOf("4x", INT_MIN, INT_MAX) == Failure(NumberFormat("4x"))
  {
    assert "42"[..1] == "4";
    assert DigitsValue("42") == 42;
  }

  /** The parsers take a sign and leading zeros: "+5", "007" and "-0". */
  lemma NonCanonicalNumbers()
    ensures IntegerOf("+5", INT_MIN, INT_MAX) == Success(5)
    ensures IntegerOf("007", INT_MIN, INT_MAX) == Success(7)
    ensures IntegerOf("-0", INT_MIN, INT_MAX) == Success(0)
    ensures IntegerOf("+", INT_MIN, INT_MAX) == Failure(NumberFormat("+"))
  {
    assert "+5"[1..] == "5";
    assert "007"[..2] == "00" && "00"[..1] == "0";
    assert DigitsValue("007") == 7;
    assert "-0"[1..] == "0";
  }

  /** getBoolean ignores case, accepts 1 and 0, and reports the lower-cased
      text of anything else. */
  lemma Booleans()
    ensures BooleanOf("TRUE") == Success(true)
    ensures BooleanOf("1") == Success(true)
    ensures BooleanOf("0") == Success(false)
    ensures BooleanOf("YES") == Failure(InvalidBoolean("yes"))
  {
    var l := Lower("YES");
    assert l[0] == 'y' && l[1] == 'e' && l[2] == 's';
    assert l == "yes";
  }
}
