# CSVParser and Validator, modelled in Dafny

This project models two parts of a small Java utility library.

- **`csv.CSVParser`** holds a CSV text and a cursor over it, with a 1-based row and column. Each call of `advanceUntil` scans one field:
  - a single pass with one character of lookahead and a quote flag;
  - doubled quotes inside quotes stand for one quote (the escape of RFC 4180, section 2, rule 7);
  - the field ends at a comma or newline, which is left for the next call to consume;
  - the field is returned trimmed, or the call throws "no more data" or "unclosed quote".
  The typed getters (`getString`, `getBoolean`, `getShort`, `getInt`, `getLong`) convert that field.
- **`sys.Validator`** has the factories `min`, `max`, `range` and `in`. They build predicates over strings, by length, and numbers, by value. The `validate` helper of `sys/IO.java` applies a list of them in order.

The modules follow the program's structure:

| module | file | models |
|---|---|---|
| `Results` | results.dfy | `Option` and `Result`. Exceptions are returned as values. |
| `JavaText` | javatext.dfy | `String.trim`, an ASCII `toLowerCase`, and decimal `parseShort`/`parseInt`/`parseLong` with `Integer.toString` as their inverse. |
| `Scan` | scan.dfy | The scanning loop of `advanceUntil` on values: `StepAt` is one iteration, branch by branch; `Run` is the loop; `Finish` is the decision after it; `ScanField` is the whole call. |
| `ScanProperties` | scan_properties.dfy | What the loop does to plain fields, quoted fields, separators and newlines. |
| `Csv` | csv.dfy | The class `Parser`, with the fields `text`, `row`, `column`, `cursor` and `sb`. `AdvanceUntil` runs the source's `while` loop on those fields and is proved to end where `ScanField` ends and to return what it returns. The getters, and the conversions `BooleanOf` and `IntegerOf`, are here too. |
| `Validation` | validation.dfy | The factories as a `Validator` datatype. `Validate` is the body of the lambda each factory returns; `ValidateAll` is IO's `validate`. |
| `ScanExamples` | scan_examples.dfy | Worked calls on small texts. |

## What the code does, rather than what CSV readers expect

The model follows the code in every branch:

- **The lookahead test comes first.** When the next character is a comma outside quotes, or a newline even inside quotes, the current character is appended and the scan stops. This holds even when the current character is a quote or a comma. So `"a"` followed by a newline fails with an unclosed quote (`QuotedFieldBeforeNewline`). A quoted field whose content starts with a comma returns its lone opening quote (`ScanExamples.QuotedCommaFirst`). Otherwise, one in which a newline follows a content character fails with an unclosed quote (`ScanExamples.QuotedNewlineInside`). A newline in quotes is not always a stop, though. Right after the opening quote it is that quote's lookahead, so the call returns a lone quote (`ScanExamples.QuotedNewlineFirst`). Right after a doubled quote it is never tested as a lookahead, because the pair is consumed in one step; it is then consumed as a line break, and the field spans two rows (`ScanExamples.NewlineAfterEscapedQuote`).
- **A closing quote does not end a field.** At the quote before a comma the quote flag is still set, so the scan goes on (a field whose content starts with a comma never gets that far; see above). The content is glued to the next field: `"a",b,c` gives `ab` on the first call (`QuotedFieldMergesWithNext`, `ScanExamples.QuotedGluedToNext`). So also `"a,b",c,d` gives `a,bc`, not `a,b`.
- **Quoted content is trimmed, and may be empty.** The quotes are dropped before the trim, so `" a "` in quotes gives `a`, and `""` gives "no more data" (`ScanExamples.EmptyQuotedField`), as does a lone quote (`ScanExamples.LoneQuote`).
- **Emptiness is tested on the untrimmed field.** A field of blanks returns `""` instead of failing (`ScanExamples.BlankField`, on the text `"  ,x"`).
- **`in` is not a membership test.** It accepts only when every listed value equals the data, despite what its documentation says (`Validation.InIsNotMembership`).

**One deliberate difference from the code: the lookahead.** `peekNextChar` (csv/CSVParser.java:123-128) tests `cursor >= length` but reads `charAt(cursor + 1)`. As written, it throws when the cursor is on the last character. The model reads the next character only when one exists, and gives NUL otherwise. That is what the method's documentation promises. The section "Findings" records it.

## Model

| member | source | states |
|---|---|---|
| Scan.Lookahead | csv/CSVParser.java:123-128 | The character after the cursor when there is one, NUL otherwise. A comma, newline or quote as lookahead implies that a next character exists. |
| Scan.PeekAsWritten | csv/CSVParser.java:123-128 | peekNextChar as written: it throws (None) exactly when the cursor is on the last character of the text. |
| Scan.LookaheadAgreesWithSource | csv/CSVParser.java:123-128 | Wherever the code as written returns a character, the guarded lookahead returns the same one. |
| Scan.PeekThrowsOnLastCharacter | csv/CSVParser.java:123-128 | On the text "a", the source's first lookahead throws; the guarded scan returns "a" and moves the cursor to 1. |
| Scan.StepAt | csv/CSVParser.java:204-237 | Every iteration moves the cursor forward and stays within the text, so the loop terminates. |
| Scan.StepInvariant | csv/CSVParser.java:205-236 | Each iteration consumes one character, or two for a doubled quote inside quotes, and appends nothing or the current character. The row never decreases, the column stays at least 1, and row plus column grow no faster than the cursor. The iteration breaks exactly on a comma lookahead outside quotes or a newline lookahead. |
| Scan.Run | csv/CSVParser.java:204-237 | The loop keeps the cursor in bounds and never moves it back. |
| Scan.RunInvariant | csv/CSVParser.java:204-237 | On every path the cursor advances when input remains. The row never decreases and the column stays at least 1. The accumulator only grows by appending, one character at most per consumed character. Exiting before the end means a break, with the cursor on the comma or newline that stopped it and that delimiter's preceding character appended. |
| Scan.Finish | csv/CSVParser.java:239-249 | An empty untrimmed field is "no more data". Otherwise the call fails exactly when still in quotes, and a success returns the trimmed field. |
| Scan.ScanField | csv/CSVParser.java:200-250 | One call keeps the cursor in bounds and advances it when input remains, and the new position stays well placed. At the end of the text the call fails with "no more data" and moves nothing. Before the end it never reports "no more data". A returned field is no longer than the text consumed. |
| ScanProperties.BreakAppendsCurrent | csv/CSVParser.java:208-211 | A stopping lookahead appends the current character, whatever it is, moves the cursor by exactly one and ends the loop. |
| ScanProperties.CounterRules | csv/CSVParser.java:225-231 | An unquoted comma adds one to the column. A newline, quoted or not, adds one to the row and sets the column to 1. Nothing else moves them. |
| ScanProperties.RunOnComma | csv/CSVParser.java:225-227 | An unquoted comma is consumed, not appended, and counts one column. |
| ScanProperties.RunOnNewline | csv/CSVParser.java:228-231 | A newline that does not stop the scan is consumed: next row, column 1. |
| ScanProperties.RunOnOpeningQuote | csv/CSVParser.java:213-215 | An opening quote is not emitted; it sets the quote flag. |
| ScanProperties.RunOnEscapedQuote | csv/CSVParser.java:216-220 | Inside quotes, a doubled quote emits one quote and advances the cursor by two. |
| ScanProperties.RunOnClosingQuote | csv/CSVParser.java:221-223 | Inside quotes, a lone quote is not emitted; it clears the quote flag. |
| ScanProperties.RunOnContent | csv/CSVParser.java:232-234 | Any other character is appended verbatim, including a comma inside quotes. |
| ScanProperties.RunKeepsPrefix | csv/CSVParser.java:204-237 | The loop never reads what it has accumulated. A prefix in the accumulator is kept and changes nothing else. |
| ScanProperties.PlainRun | csv/CSVParser.java:204-237 | Outside quotes, a run of characters other than comma, newline and quote is copied verbatim. The scan stops on the delimiter after it, or at the end. |
| ScanProperties.PlainField | csv/CSVParser.java:200-250 | A plain field at the cursor is returned trimmed, the cursor stops on the following delimiter, and row and column stay. |
| ScanProperties.FieldAfterComma | csv/CSVParser.java:225-227 | A call that starts on the comma left by the previous call consumes it, counts one column, and returns the next plain field. |
| ScanProperties.FieldAfterNewline | csv/CSVParser.java:228-231 | A call that starts on the newline left by the previous call moves to column 1 of the next row and returns the next plain field. |
| ScanProperties.MatchesEscaped | csv/CSVParser.java:216-220 | An RFC 4180 escaped body followed by a quote is, read character by character, a doubled quote for each quote and every other character as itself. |
| ScanProperties.QuotedRun | csv/CSVParser.java:213-224 | Inside quotes, for content s without a newline, the loop turns the escaped body of s back into s. It stops on the closing quote, still in quotes. |
| ScanProperties.OpenQuoted | csv/CSVParser.java:213-224 | For content without a newline and not starting with a comma: from the opening quote, the loop reaches the closing quote having accumulated exactly the unescaped content. |
| ScanProperties.QuotedFieldAtEnd | csv/CSVParser.java:213-249 | A quoted field that ends the text, with content s without a newline and not starting with a comma, is scanned to the end with the doubled quotes collapsed and the enclosing quotes dropped. The result is Finish(s, false): "no more data" when s is empty, otherwise the trimmed s. |
| ScanProperties.QuotedFieldBeforeNewline | csv/CSVParser.java:208-247 | A quoted field followed by a newline, with content without a newline and not starting with a comma, fails with an unclosed quote, the cursor left on the newline. |
| ScanProperties.QuotedFieldMergesWithNext | csv/CSVParser.java:208-224 | A quoted field followed by a comma, with content without a newline and not starting with a comma, does not end at that comma. Its content becomes the prefix of what the scan from that comma accumulates. |
| ScanProperties.AtEndNoMoreData | csv/CSVParser.java:242-244 | Called at the end of the text, the call throws "no more data" and moves nothing. |
| ScanProperties.FailsIffInQuotes | csv/CSVParser.java:239-249 | "No more data" exactly when nothing was accumulated. Otherwise an unclosed quote exactly when the loop ended in quotes, and a success is the trimmed accumulation. |
| ScanProperties.FieldIsTrimmed | csv/CSVParser.java:249 | A returned field has no blank at either end, and trimming it again changes nothing. |
| JavaText.LeadingSpaces | csv/CSVParser.java:249 | Counts exactly the leading characters at or below U+0020. |
| JavaText.TrimTrailing | csv/CSVParser.java:249 | Drops exactly the trailing characters at or below U+0020. |
| JavaText.Trim | csv/CSVParser.java:249 | String.trim: the result is the middle of the input with no blank at either end. Everything cut away is blank. It is empty exactly when the input is all blanks. |
| JavaText.TrimIdempotent | csv/CSVParser.java:249 | Trimming twice is trimming once. |
| JavaText.TrimNoSpace | csv/CSVParser.java:249 | A text without blanks is its own trim. |
| JavaText.TrimPadded | csv/CSVParser.java:249 | Trimming removes exactly the blanks around a text that starts and ends with a non-blank. |
| JavaText.Lower | csv/CSVParser.java:185 | ASCII toLowerCase: same length, each letter lowered, every other character kept. |
| JavaText.LowerDigitString | csv/CSVParser.java:185-189 | A one-digit text lower-cases to itself and to no other text. |
| JavaText.ParseDecimal | csv/CSVParser.java:135-155 | Succeeds exactly on an optional `+` or `-` followed by one or more ASCII digits whose value lies in the target range, leading zeros allowed; the value is the digits' value, negated after `-`. |
| JavaText.NatDigitsValue | csv/CSVParser.java:144-146 | The decimal digits of n have the value n. |
| JavaText.ParseToDecimal | csv/CSVParser.java:144-146 | Parsing Integer.toString(n) gives n back exactly when n is in range, and fails otherwise. |
| Csv.BooleanOf | csv/CSVParser.java:184-193 | true exactly for "true" in any case or "1", false exactly for "false" in any case or "0", and otherwise the invalid-boolean error carrying the lower-cased text. |
| Csv.IntegerOf | csv/CSVParser.java:135-155 | Success exactly on a sign-and-digits text whose value fits the type, with that value; otherwise a number-format error for that text. |
| Csv.IntegerOfToDecimal | csv/CSVParser.java:144-146 | A printed number read back by getShort/getInt/getLong is the same number when it fits the type, and a number-format error otherwise. |
| Csv.IntegerOfPadded | csv/CSVParser.java:144-146 | Blanks around a printed number are accepted, because the field is trimmed before it is parsed. |
| Csv.Parser.Empty | csv/CSVParser.java:43-45 | The empty text, at row 1, column 1, cursor 0. |
| Csv.Parser.constructor | csv/CSVParser.java:51-53 | The given text, at row 1, column 1, cursor 0. |
| Csv.Parser.GetRow | csv/CSVParser.java:74-76 | The row is at least 1 and at most one more than the characters consumed. |
| Csv.Parser.GetColumn | csv/CSVParser.java:82-84 | The column is at least 1 and at most one more than the characters consumed. |
| Csv.Parser.GetText | csv/CSVParser.java:90-92 | The text, of which the cursor has consumed a prefix. |
| Csv.Parser.SetText | csv/CSVParser.java:97-100 | The new text, with row, column and cursor reset. |
| Csv.Parser.Reset | csv/CSVParser.java:105-109 | Row 1, column 1, cursor 0; the text is unchanged. |
| Csv.Parser.IsEOF | csv/CSVParser.java:115-117 | True exactly when the cursor is at the end of the text. |
| Csv.Parser.PeekNextChar | csv/CSVParser.java:123-128 | The character after the cursor, or NUL when there is none. |
| Csv.Parser.AdvanceUntil | csv/CSVParser.java:200-250 | The while loop over the parser's fields ends at ScanField's position and returns ScanField's result. The text is unchanged, the accumulator is empty afterwards, and the position invariant is kept. |
| Csv.Parser.GetString | csv/CSVParser.java:180-182 | The scanned field, or the scan's exception, with the parser moved as by advanceUntil. |
| Csv.Parser.GetBoolean | csv/CSVParser.java:184-193 | BooleanOf of the scanned field, or the scan's exception. |
| Csv.Parser.GetShort | csv/CSVParser.java:135-137 | The scanned field parsed as a short: a value in [-32768, 32767], a number-format error, or the scan's exception. |
| Csv.Parser.GetInt | csv/CSVParser.java:144-146 | The scanned field parsed as an int: a value within the 32-bit range, or an error. |
| Csv.Parser.GetLong | csv/CSVParser.java:153-155 | The scanned field parsed as a long: a value within the 64-bit range, or an error. |
| Validation.Utf16Length | sys/Validator.java:30 | String.length: one code unit per character of the Basic Multilingual Plane and two above it, so between the number of characters and twice that. |
| Validation.Measure | sys/Validator.java:26-31 | What min, max and range compare: a string's UTF-16 length, a number's value. |
| Validation.SupplementaryCountsTwice | sys/Validator.java:24-54 | U+1F600 has length 2: min(2) accepts it and max(1) rejects it. |
| Validation.EveryEquals | sys/Validator.java:98-104 | The loop of in returns true exactly when every listed value equals the data. |
| Validation.Validate | sys/Validator.java:24-106 | min, max and range throw "unsupported type", naming the check, exactly on data that is neither string nor number; in never throws. |
| Validation.MinAccepts | sys/Validator.java:24-35 | min(m) accepts a string exactly when its UTF-16 length is at least m, and a number exactly when its value is at least m. |
| Validation.MaxAccepts | sys/Validator.java:43-54 | max(m) accepts a string exactly when its UTF-16 length is at most m, and a number exactly when its value is at most m. |
| Validation.RangeIsMinAndMax | sys/Validator.java:63-74 | range(lo, hi) accepts exactly when both min(lo) and max(hi) accept, and throws exactly when they do. |
| Validation.EmptyRangeRejects | sys/Validator.java:63-74 | With lo greater than hi, range accepts nothing. |
| Validation.InNothingAccepts | sys/Validator.java:96-106 | in with no values accepts everything. |
| Validation.InTwoDistinctRejects | sys/Validator.java:96-106 | in with two different values rejects everything. |
| Validation.InIsEveryEqual | sys/Validator.java:96-106 | in never throws, and accepts exactly when every value equals the data. |
| Validation.InComparesOtherData | sys/Validator.java:96-106 | in compares objects that are neither strings nor numbers by their identity: a different one is rejected, the same one accepted; min throws on them. |
| Validation.InIsNotMembership | sys/Validator.java:88-106 | A value in the list can still be rejected: in("a", "b") rejects "a". |
| Validation.ValidateAll | sys/IO.java:106-111 | All validators accept exactly when each of them accepts. Otherwise the result is the answer of the first validator that rejects or throws, and every one before it accepted. |
| ScanExamples.SimpleRecord | csv/CSVParser.java:200-250 | "a,b,c" gives a, b, c with the columns 1, 2, 3, then "no more data". |
| ScanExamples.SecondRow | csv/CSVParser.java:228-231 | In "a,b\nc,d", the newline moves the third call to row 2, column 1. |
| ScanExamples.EscapedQuote | csv/CSVParser.java:216-220 | The quoted field `"a""b"` gives `a"b`. |
| ScanExamples.UnclosedAtEnd | csv/CSVParser.java:245-247 | `"abc` gives the unclosed-quote error. |
| ScanExamples.EmptyQuotedField | csv/CSVParser.java:242-244 | `""` at the end of the text gives "no more data": the quotes are dropped and nothing is accumulated. |
| ScanExamples.LoneQuote | csv/CSVParser.java:242-244 | A lone `"` gives "no more data", not an unclosed quote, because the empty check comes first. |
| ScanExamples.QuotedGluedToNext | csv/CSVParser.java:208-224 | `"a",b,c` gives "ab" on the first call. |
| ScanExamples.QuotedThenNewline | csv/CSVParser.java:208-211 | `"a"` followed by a newline fails with an unclosed quote, the cursor on the newline. |
| ScanExamples.QuotedCommaFirst | csv/CSVParser.java:208-211 | `",b"` returns a lone quote: the comma lookahead stops the scan on the opening quote. |
| ScanExamples.QuotedNewlineInside | csv/CSVParser.java:208-211 | `"a\nb"`: a newline after a content character inside quotes stops the scan, and the call fails with an unclosed quote. |
| ScanExamples.QuotedNewlineFirst | csv/CSVParser.java:208-211 | `"\nb"`: the newline is the opening quote's lookahead, so the call returns a lone quote with the cursor at 1. |
| ScanExamples.NewlineAfterEscapedQuote | csv/CSVParser.java:216-231 | `"a""\nb"`: the newline after a doubled quote is consumed as a line break in quotes, and the call returns `a"b` at row 2, column 1. |
| ScanExamples.BlankField | csv/CSVParser.java:242-249 | In "  ,x", the field of blanks before the comma gives the empty string, not "no more data". |
| ScanExamples.CommaAsField | csv/CSVParser.java:208-211 | In "a,,c" the second call returns ",". |
| ScanExamples.PaddedField | csv/CSVParser.java:249 | " 42 " gives "42". |
| ScanExamples.Numbers | csv/CSVParser.java:144-146 | getInt of "42" is 42; of "4x" a number-format error. |
| ScanExamples.NonCanonicalNumbers | csv/CSVParser.java:144-146 | "+5", "007" and "-0" parse to 5, 7 and 0; a lone "+" is a number-format error. |
| ScanExamples.Booleans | csv/CSVParser.java:184-193 | "TRUE" and "1" are true, "0" is false, and "YES" is an invalid boolean "yes". |

## Left out

- `CSVParser(File)` (csv/CSVParser.java:60-68): file I/O through `java.util.Scanner`. Only the two string constructors are modelled.
- `getFloat` and `getDouble` (csv/CSVParser.java:162-173): floating-point parsing.
- `Validator.match` (sys/Validator.java:82-86): it delegates to Java's regular-expression library.
- `sys/IO.java` apart from its `validate` helper: console input and output.
- `csv/CSVParsable.java`: an interface with no behaviour.
- Scan.Lookahead: replaces the out-of-range read of peekNextChar (see "Findings"). The StringIndexOutOfBoundsException that the code as written throws on the last character of every scanned text is therefore not modelled. `Scan.PeekAsWritten` models it on its own.
- JavaText.ParseDecimal: accepts only ASCII digits. Java's parsers also accept other Unicode decimal digits.
- JavaText.Lower: lower-cases only ASCII letters. Java's `toLowerCase` is locale- and Unicode-aware.
- JavaText.Trim: strings are sequences of Unicode scalar values (Dafny `char`), not of UTF-16 code units. Trim and the scanner give the same fields as on code units, because a surrogate is above U+0020 and never a comma, newline or quote. The parser's cursor, however, counts characters where Java's counts code units, so after a character above U+FFFF the two cursors differ. `Validation.Utf16Length` restores the code-unit count where `min`, `max` and `range` need it.
- Csv.Parser: row, column and cursor are unbounded integers. Java's `int` cannot overflow here, because `Valid()` keeps row plus column at most the cursor plus 2, and the cursor is bounded by the text length.
- Validation.Data: an object that is neither a String nor a Number is an identity, and two such objects are equal exactly when their identities are; what a class's own `equals` compares is not modelled. Numbers are exact reals. The code compares `doubleValue()` with a `double` bound, which can round a `long` or a `float`.
- Validation.InIsEveryEqual: uses structural equality of `Data`. Java's `equals` between boxed numbers of different classes (an `Integer` 1 and a `Long` 1) is false, and `null` values throw; neither is modelled.
- Exceptions are returned as `Failure` values. Java's unchecked exceptions propagate out of the getters the same way, since each getter returns either the converted field or the scan's exception.

## Findings

| source | as written | input that shows it | evidently intended | confidence | as-written member | corrected member |
|---|---|---|---|---|---|---|
| csv/CSVParser.java:123-128 | peekNextChar guards `cursor >= length` but returns `charAt(cursor + 1)`, which is out of range when the cursor is on the last character | the text "a": the first iteration of advanceUntil peeks at index 1 and throws, though the method's documentation promises '\0' when there is no next character (Scan.PeekThrowsOnLastCharacter) | return '\0' whenever `cursor + 1 >= length` | high (not executed) | Scan.PeekAsWritten | Scan.Lookahead |
