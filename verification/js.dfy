/**
 The small slice of JavaScript semantics the login flow relies on:
 truthiness of an optional string, `String.prototype.startsWith`, and
 `Number.prototype.toString` on integers (the session token encoding),
 together with a decimal reader that serves as its inverse.
 */
module Js {
  import opened Wrappers

  /** `!v` is false: the value is defined and is not the empty string. */
  predicate Truthy(v: Option<string>) {
    v.Some? && v.value != ""
  }

  /** `s.startsWith(prefix)`: a raw character-prefix test. */
  predicate StartsWith(s: string, prefix: string) {
    |prefix| <= |s| && s[..|prefix|] == prefix
  }

  /** `startsWith` holds exactly when `s` is `prefix` followed by something. */
  lemma StartsWithIffConcat(s: string, prefix: string)
    ensures StartsWith(s, prefix) <==> exists rest :: s == prefix + rest
  {
    if StartsWith(s, prefix) {
      assert s == prefix + s[|prefix|..];
    }
    forall rest | s == prefix + rest
      ensures StartsWith(s, prefix)
    {
      assert s[..|prefix|] == prefix;
    }
  }

  /** A prefix of a prefix is a prefix. */
  lemma StartsWithTransitive(s: string, p: string, q: string)
    requires StartsWith(s, p) && StartsWith(p, q)
    ensures StartsWith(s, q)
  {
  }

  predicate IsDigit(c: char) {
    '0' <= c <= '9'
  }

  predicate AllDigits(s: string) {
    forall i :: 0 <= i < |s| ==> IsDigit(s[i])
  }

  function DigitValue(c: char): (d: nat)
    requires IsDigit(c)
    ensures d < 10
  {
    (c as int) - ('0' as int)
  }

  function DigitChar(d: nat): (c: char)
    requires d < 10
    ensures IsDigit(c) && DigitValue(c) == d
  {
    (('0' as int) + d) as char
  }

  /**
   The decimal digits of a natural number as JavaScript prints them: at least
   one digit, and no leading zero unless the number itself is zero.
   */
  function NatToString(n: nat): (s: string)
    ensures |s| > 0 && AllDigits(s)
    ensures s[0] == '0' <==> n == 0
    ensures n == 0 ==> s == "0"
    decreases n
  {
    if n < 10 then [DigitChar(n)] else NatToString(n / 10) + [DigitChar(n % 10)]
  }

  /** The number a string of decimal digits denotes, most significant first. */
  function DigitsValue(s: string): nat
    requires AllDigits(s)
    decreases |s|
  {
    if |s| == 0 then 0 else DigitsValue(s[..|s| - 1]) * 10 + DigitValue(s[|s| - 1])
  }

  lemma {:induction false} DigitsValueOfNatToString(n: nat)
    ensures DigitsValue(NatToString(n)) == n
    decreases n
  {
    if n >= 10 {
      var s := NatToString(n);
      assert s[..|s| - 1] == NatToString(n / 10);
      DigitsValueOfNatToString(n / 10);
    }
  }

  /**
   `n.toString()` for an integer `n`: a minus sign for negative numbers
   followed by the digits of its magnitude, with no leading zero unless `n`
   is zero.
   */
  function IntToString(n: int): (s: string)
    ensures |s| > 0
    ensures s[0] == '-' <==> n < 0
    ensures n >= 0 ==> AllDigits(s)
    ensures n < 0 ==> |s| > 1 && AllDigits(s[1..])
    ensures s[if n < 0 then 1 else 0] == '0' ==> n == 0
  {
    if n < 0 then "-" + NatToString(-n) else NatToString(n)
  }

  /** Reads an optionally signed decimal string back into an integer. */
  function ParseInt(s: string): Option<int> {
    if |s| > 1 && s[0] == '-' && AllDigits(s[1..]) then Some(-(DigitsValue(s[1..]) as int))
    else if |s| > 0 && AllDigits(s) then Some(DigitsValue(s) as int)
    else None
  }

  /** `toString` loses nothing: the integer can be read back from its string. */
  lemma IntToStringRoundTrip(n: int)
    ensures ParseInt(IntToString(n)) == Some(n)
  {
    if n < 0 {
      var s := IntToString(n);
      assert s[1..] == NatToString(-n);
      DigitsValueOfNatToString(-n);
    } else {
      DigitsValueOfNatToString(n);
    }
  }

  /** Distinct integers print as distinct strings. */
  lemma IntToStringInjective(a: int, b: int)
    ensures IntToString(a) == IntToString(b) ==> a == b
  {
    IntToStringRoundTrip(a);
    IntToStringRoundTrip(b);
  }
}
