/** The Validator factories: min, max and range compare a string's length or
    a number's value with a bound, and in compares the data with a list of
    values. Each factory's lambda is a constructor of Validator, and the
    lambda's body is Validate. */
module Validation {
  import opened Results

  /** The data a validator is applied to: a String, a Number (its value taken
      exactly) or any other object, told apart from the others by an identity
      that stands for what its equals compares. */
  datatype Data = Str(s: string) | Num(n: real) | Other(id: int)

  /** The validators the factories return. */
  datatype Validator =
    | Min(min: real)
    | Max(max: real)
    | Range(lo: real, hi: real)
    | In(values: seq<Data>)
  {
    /** The check named in the IllegalArgumentException message. */
    function Name(): string {
      match this
      case Min(_) => "min"
      case Max(_) => "max"
      case Range(_, _) => "range"
      case In(_) => "in"
    }
  }

  /** The IllegalArgumentException "Unsupported type for <check> validation". */
  datatype ValidationError = Unsupported(check: string)

  /** String.length: the number of UTF-16 code units, one for a character
      of the Basic Multilingual Plane and two (a surrogate pair) above it. */
  function Utf16Length(s: string): (n: nat)
    ensures |s| <= n <= 2 * |s|
    ensures (forall k :: 0 <= k < |s| ==> s[k] as int <= 0xFFFF) ==> n == |s|
    ensures (forall k :: 0 <= k < |s| ==> s[k] as int > 0xFFFF) ==> n == 2 * |s|
  {
    if s == [] then 0
    else Utf16Length(s[..|s| - 1]) + (if s[|s| - 1] as int > 0xFFFF then 2 else 1)
  }

  /** What min, max and range compare: a string's length, a number's value. */
  function Measure(d: Data): (m: real)
    requires !d.Other?
    ensures d.Str? ==> m == Utf16Length(d.s) as real
    ensures d.Num? ==> m == d.n
  {
    match d
    case Str(s) => Utf16Length(s) as real
    case Num(n) => n
  }

  /** A character outside the Basic Multilingual Plane counts twice: min(2)
      accepts the one-character string of U+1F600. */
  lemma SupplementaryCountsTwice()
    ensures Utf16Length("\U{1F600}") == 2
    ensures Validate(Min(2.0), Str("\U{1F600}")) == Success(true)
    ensures Validate(Max(1.0), Str("\U{1F600}")) == Success(false)
  {
  }

  /** The for loop of in: true unless some value differs from the data. */
  function EveryEquals(values: seq<Data>, d: Data): (r: bool)
    ensures r <==> forall i :: 0 <= i < |values| ==> values[i] == d
  {
    if values == [] then true
    else if values[0] != d then false
    else EveryEquals(values[1..], d)
  }

  /** validate of the lambda a factory returns. */
  function Validate(v: Validator, d: Data): (r: Result<bool, ValidationError>)
    ensures r.Failure? <==> d.Other? && !v.In?
    ensures r.Failure? ==> r.error == Unsupported(v.Name())
  {
    match v
    case In(values) => Success(EveryEquals(values, d))
    case _ =>
      if d.Other? then Failure(Unsupported(v.Name()))
      else
        var m := Measure(d);
        match v
        case Min(min) => Success(m >= min)
        case Max(max) => Success(m <= max)
        case Range(lo, hi) => Success(m >= lo && m <= hi)
  }

  /** min(m) accepts a string iff its UTF-16 length is at least m, and a number iff
      its value is at least m. */
  lemma MinAccepts(m: real, d: Data)
    ensures d.Str? ==> (Validate(Min(m), d) == Success(true) <==> Utf16Length(d.s) as real >= m)
    ensures d.Num? ==> (Validate(Min(m), d) == Success(true) <==> d.n >= m)
    ensures !d.Other? ==> Validate(Min(m), d).Success?
  {
  }

  /** max(m) accepts a string iff its UTF-16 length is at most m, and a number iff
      its value is at most m. */
  lemma MaxAccepts(m: real, d: Data)
    ensures d.Str? ==> (Validate(Max(m), d) == Success(true) <==> Utf16Length(d.s) as real <= m)
    ensures d.Num? ==> (Validate(Max(m), d) == Success(true) <==> d.n <= m)
    ensures !d.Other? ==> Validate(Max(m), d).Success?
  {
  }

  /** range(lo, hi) answers exactly what min(lo) and max(hi) answer together,
      and throws exactly when they do. */
  lemma RangeIsMinAndMax(lo: real, hi: real, d: Data)
    ensures Validate(Range(lo, hi), d) == Success(true) <==>
      Validate(Min(lo), d) == Success(true) && Validate(Max(hi), d) == Success(true)
    ensures Validate(Range(lo, hi), d).Failure? <==> Validate(Min(lo), d).Failure?
    ensures Validate(Range(lo, hi), d).Failure? <==> Validate(Max(hi), d).Failure?
  {
  }

  /** A range whose bounds are the wrong way round accepts nothing. */
  lemma EmptyRangeRejects(lo: real, hi: real, d: Data)
    requires lo > hi
    ensures Validate(Range(lo, hi), d) != Success(true)
  {
  }

  /** in with no values accepts everything, strings, numbers and other data. */
  lemma InNothingAccepts(d: Data)
    ensures Validate(In([]), d) == Success(true)
  {
  }

  /** in with two different values accepts nothing: the data cannot equal
      both. */
  lemma InTwoDistinctRejects(values: seq<Data>, i: nat, j: nat, d: Data)
    requires i < |values| && j < |values| && values[i] != values[j]
    ensures Validate(In(values), d) == Success(false)
  {
  }

  /** in never throws, and accepts exactly when every value equals the data. */
  lemma InIsEveryEqual(values: seq<Data>, d: Data)
    ensures Validate(In(values), d) == Success(forall i :: 0 <= i < |values| ==> values[i] == d)
  {
  }

  /** in is not the membership test its documentation describes: "a" is
      among "a" and "b", yet in("a", "b") rejects it. */
  lemma InIsNotMembership()
    ensures Str("a") in [Str("a"), Str("b")]
    ensures Validate(In([Str("a"), Str("b")]), Str("a")) == Success(false)
  {
    assert [Str("a"), Str("b")][0] == Str("a");
  }

  /** in compares other objects too: a different object is rejected, the
      same one accepted, and neither throws. */
  lemma InComparesOtherData(a: int, b: int)
    requires a != b
    ensures Validate(In([Other(a)]), Other(b)) == Success(false)
    ensures Validate(In([Other(a)]), Other(a)) == Success(true)
    ensures Validate(Min(0.0), Other(a)) == Failure(Unsupported("min"))
  {
    assert [Other(a)][0] == Other(a);
  }

  /** The validate helper of IO: the validators in order, stopping at the
      first that rejects (false) or throws (its exception). */
  function ValidateAll(vs: seq<Validator>, d: Data): (r: Result<bool, ValidationError>)
    ensures r == Success(true) <==> forall i :: 0 <= i < |vs| ==> Validate(vs[i], d) == Success(true)
    ensures r != Success(true) ==>
      exists i :: 0 <= i < |vs| && Validate(vs[i], d) == r &&
        (forall j :: 0 <= j < i ==> Validate(vs[j], d) == Success(true))
  {
    if vs == [] then Success(true)
    else
      match Validate(vs[0], d)
      case Success(true) =>
        var rest := ValidateAll(vs[1..], d);
        assert forall i :: 1 <= i < |vs| ==> vs[i] == vs[1..][i - 1];
        rest
      case other => other
  }
}
