/** Values shared by every example: Java's null as an Option, results that
    can fail, Java's 32-bit int range and the decimal rendering Java uses
    for ints inside toString() and string concatenation. */
module Basics {

  /** An optional value; None stands for Java's null or an empty Optional. */
  datatype Option<+T> = None | Some(value: T)

  /** The outcome of an operation that can throw. */
  datatype Result<+R, +E> = Success(value: R) | Failure(error: E)

  /** Java's int (and the range of a non-null Integer). */
  type Int32 = x: int | -0x8000_0000 <= x < 0x8000_0000

  /** Optional.orElse */
  function OrElse<T>(o: Option<T>, fallback: T): (r: T)
    ensures o.Some? ==> r == o.value
    ensures o.None? ==> r == fallback
  {
    match o
    case Some(v) => v
    case None => fallback
  }

  /** Optional.map */
  function MapOption<T, U>(o: Option<T>, f: T -> U): (r: Option<U>)
    ensures r.Some? <==> o.Some?
    ensures r.Some? ==> r.value == f(o.value)
  {
    match o
    case Some(v) => Some(f(v))
    case None => None
  }

  predicate IsDigit(c: char) {
    48 <= c as int <= 57
  }

  function DigitChar(d: nat): (c: char)
    requires d < 10
    ensures IsDigit(c)
  {
    (48 + d) as char
  }

  /** A slice that lies in the left part of a concatenation is a slice of that part. */
  lemma SliceLeft(s: string, t: string, i: nat, j: nat)
    requires i <= j <= |s|
    ensures (s + t)[i..j] == s[i..j]
  {
  }

  /** A slice that lies in the right part of a concatenation is a slice of that part. */
  lemma SliceRight(s: string, t: string, i: nat, j: nat)
    requires |s| <= i <= j <= |s| + |t|
    ensures (s + t)[i..j] == t[i - |s|..j - |s|]
  {
  }

  /** Decimal digits of a natural number, most significant first, no leading zero. */
  function NatToString(n: nat): (s: string)
    ensures |s| >= 1
    ensures forall i :: 0 <= i < |s| ==> IsDigit(s[i])
    ensures |s| > 1 ==> s[0] != '0'
    decreases n
  {
    if n < 10 then [DigitChar(n)] else NatToString(n / 10) + [DigitChar(n % 10)]
  }

  /** Integer.toString: a minus sign for negative values, then the digits. */
  function IntToString(n: int): (s: string)
    ensures |s| >= 1
    ensures n < 0 <==> s[0] == '-'
  {
    if n < 0 then "-" + NatToString(-n) else NatToString(n)
  }

  /** The reading of a string of decimal digits, the inverse of NatToString. */
  function ParseNat(s: string): nat
    requires forall i :: 0 <= i < |s| ==> IsDigit(s[i])
  {
    if s == [] then 0
    else
      assert IsDigit(s[|s| - 1]);
      10 * ParseNat(s[..|s| - 1]) + (s[|s| - 1] as int - 48)
  }

  /** The reading of an optionally signed decimal string (Integer.parseInt on the strings IntToString produces). */
  function ParseInt(s: string): Option<int> {
    if |s| > 1 && s[0] == '-' && forall i :: 1 <= i < |s| ==> IsDigit(s[i]) then
      Some(-(ParseNat(s[1..]) as int))
    else if |s| > 0 && forall i :: 0 <= i < |s| ==> IsDigit(s[i]) then
      Some(ParseNat(s))
    else
      None
  }

  lemma {:induction false} ParseNatToString(n: nat)
    ensures ParseNat(NatToString(n)) == n
  {
    if n >= 10 {
      var s := NatToString(n);
      assert s[..|s| - 1] == NatToString(n / 10);
      ParseNatToString(n / 10);
    }
  }

  /** Rendering an int and reading it back gives the same int: the rendering loses nothing. */
  lemma IntToStringRoundTrip(n: int)
    ensures ParseInt(IntToString(n)) == Some(n)
  {
    var s := IntToString(n);
    if n < 0 {
      var digits := NatToString(-n);
      assert s == "-" + digits;
      assert s[1..] == digits;
      assert forall i :: 1 <= i < |s| ==> IsDigit(s[i]) by {
        forall i | 1 <= i < |s|
          ensures IsDigit(s[i])
        {
          assert s[i] == digits[i - 1];
        }
      }
      ParseNatToString(-n);
    } else {
      assert IsDigit(s[0]);
      ParseNatToString(n);
    }
  }

  /** Distinct ints render differently. */
  lemma IntToStringInjective(m: int, n: int)
    requires IntToString(m) == IntToString(n)
    ensures m == n
  {
    IntToStringRoundTrip(m);
    IntToStringRoundTrip(n);
  }
}
