/** The CSVParser class: a cursor over a CSV text that hands out one field
    per call, converted to the type the caller asks for. */
module Csv {
  import opened Results
  import opened JavaText
  import opened Scan

  /** The exceptions the getters throw, as values. */
  datatype AccessError =
    | ScanFailed(cause: ScanError)   // IllegalStateException from advanceUntil
    | InvalidBoolean(value: string)  // IllegalArgumentException of getBoolean
    | NumberFormat(input: string)    // NumberFormatException of the number parsers

  /** The ranges of Java's short, int and long. */
  const SHORT_MIN: int := -0x8000
  const SHORT_MAX: int := 0x7FFF
  const INT_MIN: int := -0x8000_0000
  const INT_MAX: int := 0x7FFF_FFFF
  const LONG_MIN: int := -0x8000_0000_0000_0000
  const LONG_MAX: int := 0x7FFF_FFFF_FFFF_FFFF

  /** getBoolean's conversion of a field: the field is lower-cased first, and
      the error carries the lower-cased text. */
  function BooleanOf(field: string): (r: Result<bool, AccessError>)
    ensures r == Success(true) <==> Lower(field) == "true" || field == "1"
    ensures r == Success(false) <==> Lower(field) == "false" || field == "0"
    ensures r.Failure? <==>
      Lower(field) != "true" && Lower(field) != "false" && field != "1" && field != "0"
    ensures r.Failure? ==> r.error == InvalidBoolean(Lower(field))
  {
    LowerDigitString(field, '1');
    LowerDigitString(field, '0');
    var value := Lower(field);
    if value == "true" || value == "1" then Success(true)
    else if value == "false" || value == "0" then Success(false)
    else Failure(InvalidBoolean(value))
  }

  /** Short.parseShort, Integer.parseInt or Long.parseLong of a field, by the
      range [lo, hi] of the target type. */
  function IntegerOf(field: string, lo: int, hi: int): (r: Result<int, AccessError>)
    ensures r.Success? ==> lo <= r.value <= hi
    ensures r.Success? ==>
      field != [] && (IsDigit(field[0]) || (|field| >= 2 && (field[0] == '-' || field[0] == '+'))) &&
      forall k :: 0 < k < |field| ==> IsDigit(field[k])
    ensures field != [] && AllDigits(field) ==>
      r == if lo <= DigitsValue(field) <= hi then Success(DigitsValue(field)) else Failure(NumberFormat(field))
    ensures |field| >= 2 && field[0] == '+' && AllDigits(field[1..]) ==>
      r == if lo <= DigitsValue(field[1..]) <= hi then Success(DigitsValue(field[1..])) else Failure(NumberFormat(field))
    ensures |field| >= 2 && field[0] == '-' && AllDigits(field[1..]) ==>
      r == if lo <= 0 - DigitsValue(field[1..]) as int <= hi then Success(0 - DigitsValue(field[1..]) as int) else Failure(NumberFormat(field))
    ensures r.Failure? ==> r.error == NumberFormat(field)
  {
    match ParseDecimal(field, lo, hi)
    case Some(v) => Success(v)
    case None => Failure(NumberFormat(field))
  }

  /** A number printed by Integer.toString and read back by a getter is the
      same number when it fits the target type, and a NumberFormatException
      otherwise. */
  lemma IntegerOfToDecimal(n: int, lo: int, hi: int)
    ensures IntegerOf(ToDecimal(n), lo, hi) ==
      if lo <= n <= hi then Success(n) else Failure(NumberFormat(ToDecimal(n)))
  {
    ParseToDecimal(n, lo, hi);
  }

  /** Blanks around a printed number do not matter once the field is
      trimmed, as advanceUntil does before a getter parses it. */
  lemma IntegerOfPadded(a: string, n: int, b: string, lo: int, hi: int)
    requires forall k :: 0 <= k < |a| ==> IsSpace(a[k])
    requires forall k :: 0 <= k < |b| ==> IsSpace(b[k])
    ensures IntegerOf(Trim(a + ToDecimal(n) + b), lo, hi) ==
      if lo <= n <= hi then Success(n) else Failure(NumberFormat(ToDecimal(n)))
  {
    var m := ToDecimal(n);
    var d := if n < 0 then NatDigits(-n) else NatDigits(n);
    assert m[|m| - 1] == d[|d| - 1];
    TrimPadded(a, m, b);
    IntegerOfToDecimal(n, lo, hi);
  }

  /** What a typed getter returns: the scan's exception, or the conversion of
      the scanned field. */
  function Convert<T>(scan: Result<string, ScanError>, convert: string -> Result<T, AccessError>): Result<T, AccessError> {
    match scan
    case Failure(e) => Failure(ScanFailed(e))
    case Success(field) => convert(field)
  }

  class Parser {
    var text: string
    var row: int
    var column: int
    var cursor: nat
    /** The StringBuilder advanceUntil accumulates into; empty between calls. */
    var sb: string

    function Pos(): Position
      reads this
    {
      Position(cursor, row, column)
    }

    ghost predicate Valid()
      reads this
    {
      sb == [] && cursor <= |text| && WellPlaced(Pos())
    }

    /** A parser over the empty text. */
    constructor Empty()
      ensures Valid() && text == [] && Pos() == Position(0, 1, 1)
    {
      text := [];
      row, column, cursor := 1, 1, 0;
      sb := [];
    }

    /** A parser at the start of t. */
    constructor(t: string)
      ensures Valid() && text == t && Pos() == Position(0, 1, 1)
    {
      text := t;
      row, column, cursor := 1, 1, 0;
      sb := [];
    }

    /** The current row: 1-based, and at most one more than the characters
        consumed. */
    function GetRow(): (r: int)
      reads this
      requires Valid()
      ensures 1 <= r <= cursor + 1
    {
      row
    }

    /** The current column: 1-based, and at most one more than the
        characters consumed. */
    function GetColumn(): (r: int)
      reads this
      requires Valid()
      ensures 1 <= r <= cursor + 1
    {
      column
    }

    /** The text, of which cursor characters have been consumed. */
    function GetText(): (r: string)
      reads this
      requires Valid()
      ensures cursor <= |r|
    {
      text
    }

    /** Replaces the text and starts again from its first character. */
    method SetText(t: string)
      requires Valid()
      modifies this
      ensures Valid() && text == t && Pos() == Position(0, 1, 1)
    {
      text := t;
      Reset();
    }

    /** Back to row 1, column 1, cursor 0 of the same text. */
    method Reset()
      requires sb == []
      modifies this
      ensures Valid() && text == old(text) && Pos() == Position(0, 1, 1)
    {
      row := 1;
      column := 1;
      cursor := 0;
    }

    /** Whether every character has been consumed. */
    function IsEOF(): (b: bool)
      reads this
      requires Valid()
      ensures b <==> cursor == |text|
    {
      cursor >= |text|
    }

    /** The character after the cursor, or NUL when there is none. */
    function PeekNextChar(): (c: char)
      reads this
      ensures cursor + 1 < |text| ==> c == text[cursor + 1]
      ensures cursor + 1 >= |text| ==> c == NUL
    {
      Lookahead(text, cursor)
    }

    /** Scans the next field: the loop of the source, run on the fields of
        the parser, ends where ScanField says and returns what it says. */
    method AdvanceUntil() returns (r: Result<string, ScanError>)
      requires Valid()
      modifies this
      ensures Valid() && text == old(text)
      ensures Scanned(Pos(), r) == ScanField(text, old(Pos()))
    {
      ghost var scanned := ScanField(text, Pos());
      ghost var final := Run(text, Start(Pos()));
      var isQuote := false;
      while cursor < |text|
        invariant cursor <= |text|
        invariant text == old(text)
        invariant Run(text, LoopState(cursor, row, column, sb, isQuote)) == final
        decreases |text| - cursor
      {
        ghost var before := LoopState(cursor, row, column, sb, isQuote);
        var c := text[cursor];
        var nc := PeekNextChar();
        if (nc == ',' && !isQuote) || nc == '\n' {
          cursor := cursor + 1;
          sb := sb + [c];
          assert StepAt(text, before) == Break(LoopState(cursor, row, column, sb, isQuote));
          break;
        } else if c == '"' && !isQuote {
          isQuote := true;
        } else if c == '"' && isQuote {
          if nc == '"' {
            sb := sb + [c];
            cursor := cursor + 1;
          } else {
            isQuote := false;
          }
        } else if c == ',' && !isQuote {
          column := column + 1;
        } else if c == '\n' {
          column := 1;
          row := row + 1;
        } else {
          sb := sb + [c];
        }
        cursor := cursor + 1;
        assert StepAt(text, before) == Continue(LoopState(cursor, row, column, sb, isQuote));
      }
      assert LoopState(cursor, row, column, sb, isQuote) == final;
      var field := sb;
      sb := [];
      if |field| == 0 {
        r := Failure(NoMoreData);
      } else if isQuote {
        r := Failure(UnclosedQuote);
      } else {
        r := Success(Trim(field));
      }
      assert Scanned(Pos(), r) == scanned;
    }

    /** getString: the next field, trimmed. */
    method GetString() returns (r: Result<string, AccessError>)
      requires Valid()
      modifies this
      ensures Valid() && text == old(text)
      ensures Pos() == ScanField(text, old(Pos())).pos
      ensures r == Convert(ScanField(text, old(Pos())).result, field => Success(field))
    {
      var s := AdvanceUntil();
      r := Convert(s, field => Success(field));
    }

    /** getBoolean: "true" or "1" in any case, "false" or "0". */
    method GetBoolean() returns (r: Result<bool, AccessError>)
      requires Valid()
      modifies this
      ensures Valid() && text == old(text)
      ensures Pos() == ScanField(text, old(Pos())).pos
      ensures r == Convert(ScanField(text, old(Pos())).result, BooleanOf)
    {
      var s := AdvanceUntil();
      r := Convert(s, BooleanOf);
    }

    /** getShort: the next field as a 16-bit signed integer. */
    method GetShort() returns (r: Result<int, AccessError>)
      requires Valid()
      modifies this
      ensures Valid() && text == old(text)
      ensures Pos() == ScanField(text, old(Pos())).pos
      ensures r == Convert(ScanField(text, old(Pos())).result, field => IntegerOf(field, SHORT_MIN, SHORT_MAX))
      ensures r.Success? ==> SHORT_MIN <= r.value <= SHORT_MAX
    {
      var s := AdvanceUntil();
      r := Convert(s, field => IntegerOf(field, SHORT_MIN, SHORT_MAX));
    }

    /** getInt: the next field as a 32-bit signed integer. */
    method GetInt() returns (r: Result<int, AccessError>)
      requires Valid()
      modifies this
      ensures Valid() && text == old(text)
      ensures Pos() == ScanField(text, old(Pos())).pos
      ensures r == Convert(ScanField(text, old(Pos())).result, field => IntegerOf(field, INT_MIN, INT_MAX))
      ensures r.Success? ==> INT_MIN <= r.value <= INT_MAX
    {
      var s := AdvanceUntil();
      r := Convert(s, field => IntegerOf(field, INT_MIN, INT_MAX));
    }

    /** getLong: the next field as a 64-bit signed integer. */
    method GetLong() returns (r: Result<int, AccessError>)
      requires Valid()
      modifies this
      ensures Valid() && text == old(text)
      ensures Pos() == ScanField(text, old(Pos())).pos
      ensures r == Convert(ScanField(text, old(Pos())).result, field => IntegerOf(field, LONG_MIN, LONG_MAX))
      ensures r.Success? ==> LONG_MIN <= r.value <= LONG_MAX
    {
      var s := AdvanceUntil();
      r := Convert(s, field => IntegerOf(field, LONG_MIN, LONG_MAX));
    }
  }
}
