/**
  Decimal rendering of non-negative integers, as a JavaScript template
  literal `${n}` produces it for an integer index, and the facts the edge keys
  rely on: the rendering can be read back, so it is injective, and a key built
  as `digits-digits` determines both halves.
*/
module Decimal {

  predicate IsDigit(ch: char) {
    '0' <= ch <= '9'
  }

  predicate AllDigits(s: string) {
    forall k :: 0 <= k < |s| ==> IsDigit(s[k])
  }

  function DigitChar(d: nat): (ch: char)
    requires d < 10
    ensures IsDigit(ch) && ch as int - '0' as int == d
  {
    ('0' as int + d) as char
  }

  /** The shortest decimal rendering of `n`, without leading zeros or sign. */
  function NatToString(n: nat): (s: string)
    ensures |s| >= 1 && AllDigits(s)
    ensures |s| > 1 ==> s[0] != '0'
  {
    if n < 10 then [DigitChar(n)] else NatToString(n / 10) + [DigitChar(n % 10)]
  }

  /** The value of a string of decimal digits. */
  function DecimalValue(s: string): nat
    requires AllDigits(s)
  {
    if s == [] then 0
    else DecimalValue(s[..|s| - 1]) * 10 + (s[|s| - 1] as int - '0' as int)
  }

  lemma {:induction false} DecimalRoundTrip(n: nat)
    ensures DecimalValue(NatToString(n)) == n
  {
    if n >= 10 {
      DecimalRoundTrip(n / 10);
      var s := NatToString(n);
      assert s[..|s| - 1] == NatToString(n / 10);
    }
  }

  lemma NatToStringInjective(a: nat, b: nat)
    ensures NatToString(a) == NatToString(b) ==> a == b
  {
    DecimalRoundTrip(a);
    DecimalRoundTrip(b);
  }

  /** The position of the first `sep` in `s`, or |s| when there is none. */
  function FirstIndexOf(s: string, sep: char): (k: nat)
    ensures k <= |s|
  {
    if s == [] || s[0] == sep then 0 else 1 + FirstIndexOf(s[1..], sep)
  }

  lemma {:induction false} FirstIndexAfter(a: string, b: string, sep: char)
    requires sep !in a
    ensures FirstIndexOf(a + [sep] + b, sep) == |a|
  {
    if a != [] {
      assert (a + [sep] + b)[1..] == a[1..] + [sep] + b;
      FirstIndexAfter(a[1..], b, sep);
    }
  }

  /** Joining two separator-free left parts with a separator: the join determines both parts. */
  lemma SplitAtSeparator(a: string, b: string, c: string, d: string, sep: char)
    requires sep !in a && sep !in c
    requires a + [sep] + b == c + [sep] + d
    ensures a == c && b == d
  {
    var s := a + [sep] + b;
    FirstIndexAfter(a, b, sep);
    FirstIndexAfter(c, d, sep);
    assert a == s[..|a|] == c;
    assert b == s[|a| + 1..] == d;
  }
}
