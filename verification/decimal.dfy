/**
 Decimal rendering of Java `int` values, as produced by string concatenation
 `"" + port`, and the parser that inverts it. The adapter uses the rendering
 for the `ServiceID` suffix and for the `management.port` metadata value.
 */
module Decimal {
  import opened Wrappers

  predicate IsDigit(c: char) {
    '0' <= c <= '9'
  }

  function DigitValue(c: char): (d: nat)
    requires IsDigit(c)
    ensures d < 10
  {
    c as int - '0' as int
  }

  function DigitChar(d: nat): (c: char)
    requires d < 10
    ensures IsDigit(c) && DigitValue(c) == d
  {
    ('0' as int + d) as char
  }

  /** Base-10 digits of `n`, most significant first, without leading zeros. */
  function NatToString(n: nat): (s: string)
    ensures |s| >= 1
    ensures forall i :: 0 <= i < |s| ==> IsDigit(s[i])
    ensures s[0] == '0' <==> n == 0
    decreases n
  {
    if n < 10 then [DigitChar(n)] else NatToString(n / 10) + [DigitChar(n % 10)]
  }

  /** What Java's `"" + x` gives for an integer `x`: a minus sign for negatives, then the digits. */
  function IntToString(x: int): (s: string)
    ensures |s| >= 1
    ensures ':' !in s
    ensures forall i :: 0 <= i < |s| ==> IsDigit(s[i]) || (i == 0 && s[i] == '-')
    ensures s[0] == '-' <==> x < 0
    ensures x < 0 ==> |s| >= 2 && s[1] != '0'
    ensures x >= 0 ==> (s[0] == '0' <==> x == 0)
    ensures x == 0 ==> s == "0"
  {
    if x < 0 then "-" + NatToString(-x) else NatToString(x)
  }

  /** Reads a non-empty string of decimal digits; anything else is rejected. */
  function ParseNat(s: string): (r: Option<nat>)
    ensures r.Some? ==> |s| >= 1 && forall i :: 0 <= i < |s| ==> IsDigit(s[i])
    decreases |s|
  {
    if |s| == 0 || !IsDigit(s[|s| - 1]) then None
    else if |s| == 1 then Some(DigitValue(s[0]))
    else match ParseNat(s[..|s| - 1])
      case None => None
      case Some(v) => Some(10 * v + DigitValue(s[|s| - 1]))
  }

  /** Reads an optional minus sign followed by decimal digits. */
  function ParseInt(s: string): (r: Option<int>)
  {
    if |s| > 0 && s[0] == '-' then
      match ParseNat(s[1..])
      case None => None
      case Some(v) => Some(-(v as int))
    else
      match ParseNat(s)
      case None => None
      case Some(v) => Some(v as int)
  }

  lemma {:induction false} NatRoundTrip(n: nat)
    ensures ParseNat(NatToString(n)) == Some(n)
    decreases n
  {
    if n >= 10 {
      var s := NatToString(n);
      assert s[..|s| - 1] == NatToString(n / 10);
      NatRoundTrip(n / 10);
    }
  }

  /** Rendering followed by parsing gives back the integer: no information is lost. */
  lemma IntRoundTrip(x: int)
    ensures ParseInt(IntToString(x)) == Some(x)
  {
    var s := IntToString(x);
    if x < 0 {
      var d := NatToString(-x);
      assert s == "-" + d;
      assert s[1..] == d;
      NatRoundTrip(-x);
    } else {
      assert s == NatToString(x);
      assert IsDigit(s[0]);
      NatRoundTrip(x);
    }
  }

  /** Distinct integers render to distinct strings. */
  lemma IntToStringInjective(x: int, y: int)
    ensures IntToString(x) == IntToString(y) <==> x == y
  {
    if IntToString(x) == IntToString(y) {
      IntRoundTrip(x);
      IntRoundTrip(y);
    }
  }
}
