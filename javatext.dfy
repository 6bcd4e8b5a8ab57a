/** The small parts of the Java string and number library that the CSV
    parser relies on: String.trim, an ASCII String.toLowerCase, and the
    decimal parsing of Integer/Short/Long.parse*. */
module JavaText {
  import opened Results

  /** String.trim treats every character at or below U+0020 as space. */
  predicate IsSpace(c: char) {
    c <= ' '
  }

  /** The number of leading space characters of s. */
  function LeadingSpaces(s: string): (n: nat)
    ensures n <= |s|
    ensures forall k :: 0 <= k < n ==> IsSpace(s[k])
    ensures n < |s| ==> !IsSpace(s[n])
  {
    if s != [] && IsSpace(s[0]) then 1 + LeadingSpaces(s[1..]) else 0
  }

  /** s without its trailing space characters. */
  function TrimTrailing(s: string): (r: string)
    ensures |r| <= |s| && r == s[..|r|]
    ensures forall k :: |r| <= k < |s| ==> IsSpace(s[k])
    ensures r != [] ==> !IsSpace(r[|r| - 1])
  {
    if s != [] && IsSpace(s[|s| - 1]) then TrimTrailing(s[..|s| - 1]) else s
  }

  /** String.trim: drop the leading, then the trailing space characters. */
  function Trim(s: string): (r: string)
    ensures var n := LeadingSpaces(s);
      n + |r| <= |s| && r == s[n..n + |r|] &&
      forall k :: n + |r| <= k < |s| ==> IsSpace(s[k])
    ensures r != [] ==> !IsSpace(r[0]) && !IsSpace(r[|r| - 1])
    ensures r == [] <==> forall k :: 0 <= k < |s| ==> IsSpace(s[k])
  {
    var n := LeadingSpaces(s);
    var r := TrimTrailing(s[n..]);
    r
  }

  /** Trimming twice is trimming once. */
  lemma TrimIdempotent(s: string)
    ensures Trim(Trim(s)) == Trim(s)
  {
    var t := Trim(s);
    if t != [] {
      assert LeadingSpaces(t) == 0;
      assert TrimTrailing(t) == t;
    }
  }

  /** A string with no space character is its own trim. */
  lemma TrimNoSpace(s: string)
    requires forall k :: 0 <= k < |s| ==> !IsSpace(s[k])
    ensures Trim(s) == s
  {
    if s != [] {
      assert LeadingSpaces(s) == 0;
      assert s[0..] == s;
    }
  }

  /** Trimming removes exactly the spaces around a text that neither starts
      nor ends with a space. */
  lemma TrimPadded(a: string, m: string, b: string)
    requires forall k :: 0 <= k < |a| ==> IsSpace(a[k])
    requires forall k :: 0 <= k < |b| ==> IsSpace(b[k])
    requires m != [] && !IsSpace(m[0]) && !IsSpace(m[|m| - 1])
    ensures Trim(a + m + b) == m
  {
    var s := a + m + b;
    var n := LeadingSpaces(s);
    var r := Trim(s);
    assert s[|a|] == m[0];
    assert n == |a|;
    assert s[|a| + |m| - 1] == m[|m| - 1];
    assert r != [];
    assert |r| == |m|;
    assert s[|a|..|a| + |m|] == m;
  }

  /** Character.toLowerCase restricted to ASCII letters. */
  function LowerChar(c: char): (l: char)
    ensures 'A' <= c <= 'Z' ==> 'a' <= l <= 'z' && l as int - 'a' as int == c as int - 'A' as int
    ensures !('A' <= c <= 'Z') ==> l == c
  {
    if 'A' <= c <= 'Z' then (c as int - 'A' as int + 'a' as int) as char else c
  }

  /** String.toLowerCase restricted to ASCII letters. */
  function Lower(s: string): (r: string)
    ensures |r| == |s|
    ensures forall k :: 0 <= k < |s| ==> r[k] == LowerChar(s[k])
  {
    seq(|s|, k requires 0 <= k < |s| => LowerChar(s[k]))
  }

  /** Lower-casing changes neither a digit nor anything but a capital letter,
      so only "1" itself lower-cases to "1" (and likewise for "0"). */
  lemma LowerDigitString(s: string, d: char)
    requires '0' <= d <= '9'
    ensures Lower(s) == [d] <==> s == [d]
  {
    if Lower(s) == [d] {
      assert LowerChar(s[0]) == d;
    }
  }

  predicate IsDigit(c: char) {
    '0' <= c <= '9'
  }

  predicate AllDigits(d: string) {
    forall k :: 0 <= k < |d| ==> IsDigit(d[k])
  }

  function DigitValue(c: char): (v: nat)
    requires IsDigit(c)
    ensures v < 10
  {
    c as int - '0' as int
  }

  function DigitChar(v: nat): (c: char)
    requires v < 10
    ensures IsDigit(c) && DigitValue(c) == v
  {
    (v + '0' as int) as char
  }

  /** The value of a string of decimal digits, most significant first. */
  function DigitsValue(d: string): nat
    requires AllDigits(d)
  {
    if d == [] then 0 else DigitsValue(d[..|d| - 1]) * 10 + DigitValue(d[|d| - 1])
  }

  /** The decimal parse behind Integer.parseInt, Short.parseShort and
      Long.parseLong: an optional '+' or '-', then one or more ASCII digits,
      and the value must lie in [lo, hi]; None stands for the
      NumberFormatException. */
  function ParseDecimal(s: string, lo: int, hi: int): (r: Option<int>)
    ensures r.Some? ==> lo <= r.value <= hi
    ensures r.Some? ==>
      s != [] && (IsDigit(s[0]) || (|s| >= 2 && (s[0] == '-' || s[0] == '+'))) &&
      forall k :: 0 < k < |s| ==> IsDigit(s[k])
    ensures s != [] && AllDigits(s) ==>
      r == if lo <= DigitsValue(s) <= hi then Some(DigitsValue(s)) else None
    ensures |s| >= 2 && s[0] == '+' && AllDigits(s[1..]) ==>
      r == if lo <= DigitsValue(s[1..]) <= hi then Some(DigitsValue(s[1..])) else None
    ensures |s| >= 2 && s[0] == '-' && AllDigits(s[1..]) ==>
      r == if lo <= 0 - DigitsValue(s[1..]) as int <= hi then Some(0 - DigitsValue(s[1..]) as int) else None
  {
    if s == [] then None
    else
      var digits := if s[0] == '-' || s[0] == '+' then s[1..] else s;
      if digits == [] || !AllDigits(digits) then None
      else
        var v: int := if s[0] == '-' then 0 - DigitsValue(digits) as int else DigitsValue(digits);
        if lo <= v <= hi then Some(v) else None
  }

  /** Decimal digits of n, without leading zeros. */
  function NatDigits(n: nat): (d: string)
    ensures d != [] && AllDigits(d)
  {
    if n < 10 then [DigitChar(n)] else NatDigits(n / 10) + [DigitChar(n % 10)]
  }

  /** Integer.toString: the reference printer that ParseDecimal inverts. */
  function ToDecimal(n: int): (s: string)
  {
    if n < 0 then "-" + NatDigits(-n) else NatDigits(n)
  }

  lemma {:induction false} NatDigitsValue(n: nat)
    ensures DigitsValue(NatDigits(n)) == n
  {
    if n >= 10 {
      NatDigitsValue(n / 10);
      var d := NatDigits(n);
      assert d[..|d| - 1] == NatDigits(n / 10);
    }
  }

  /** Parsing the printed form of n gives n back exactly when n is in range. */
  lemma ParseToDecimal(n: int, lo: int, hi: int)
    ensures ParseDecimal(ToDecimal(n), lo, hi) == if lo <= n <= hi then Some(n) else None
  {
    var s := ToDecimal(n);
    if n < 0 {
      var d := NatDigits(-n);
      NatDigitsValue(-n);
      assert s == "-" + d;
      assert s[0] == '-' && s[1..] == d;
    } else {
      var d := NatDigits(n);
      NatDigitsValue(n);
      assert s == d && IsDigit(s[0]);
    }
  }
}
