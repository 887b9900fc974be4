/** Decimal digit strings: what `Number.prototype.toString()` produces for a
    non-negative integer, the value such a string denotes, and `padStart`. */
module Decimal {

  predicate IsDigit(c: char) {
    '0' <= c <= '9'
  }

  predicate AllDigits(s: string) {
    forall i :: 0 <= i < |s| ==> IsDigit(s[i])
  }

  function DigitValue(c: char): (d: nat)
    requires IsDigit(c)
    ensures d < 10
  {
    c as int - '0' as int
  }

  function DigitChar(d: nat): (c: char)
    requires d < 10
    ensures IsDigit(c) && DigitValue(c) == d
  {
    ('0' as int + d) as char
  }

  /** The value a string of decimal digits denotes (leading zeros allowed). */
  function ValueOf(s: string): (n: nat)
    requires AllDigits(s)
  {
    if s == [] then 0 else ValueOf(s[..|s| - 1]) * 10 + DigitValue(s[|s| - 1])
  }

  /** `n.toString()` for a non-negative integer: shortest decimal form, no sign. */
  function NatToString(n: nat): (s: string)
    ensures |s| >= 1 && AllDigits(s)
    ensures n < 10 <==> |s| == 1
    ensures |s| > 1 ==> s[0] != '0'
    decreases n
  {
    if n < 10 then [DigitChar(n)] else NatToString(n / 10) + [DigitChar(n % 10)]
  }

  /** Reading back what NatToString wrote gives the number again. */
  lemma {:induction false} ValueOfNatToString(n: nat)
    ensures ValueOf(NatToString(n)) == n
    decreases n
  {
    if n >= 10 {
      var s := NatToString(n);
      assert s[..|s| - 1] == NatToString(n / 10);
      ValueOfNatToString(n / 10);
    }
  }

  /** NatToString is one-to-one: two numbers print the same only if equal. */
  lemma NatToStringInjective(m: nat, n: nat)
    requires NatToString(m) == NatToString(n)
    ensures m == n
  {
    ValueOfNatToString(m);
    ValueOfNatToString(n);
  }

  /** Two characters are enough for every number below 100. */
  lemma {:induction false} NatToStringShort(n: nat)
    requires n < 100
    ensures |NatToString(n)| <= 2
  {
    if n >= 10 {
      assert NatToString(n / 10) == [DigitChar(n / 10)];
    }
  }

  /** `s.padStart(width, fill)`: prepends copies of `fill` until the string is
      `width` long; a string already that long is returned as it is. */
  function PadStart(s: string, width: nat, fill: char): (r: string)
    ensures |r| == if |s| >= width then |s| else width
    ensures r[|r| - |s|..] == s
    ensures forall i :: 0 <= i < |r| - |s| ==> r[i] == fill
    decreases width - |s|
  {
    if |s| >= width then s else PadStart([fill] + s, width, fill)
  }

  /** A leading zero does not change the value of a digit string. */
  lemma {:induction false} ValueOfLeadingZero(s: string)
    requires AllDigits(s)
    ensures AllDigits("0" + s) && ValueOf("0" + s) == ValueOf(s)
    decreases |s|
  {
    var z := "0" + s;
    if s != [] {
      assert z[..|z| - 1] == "0" + s[..|s| - 1];
      ValueOfLeadingZero(s[..|s| - 1]);
    }
  }

  /** `n.toString().padStart(2, '0')`: at least two digits, denoting `n`. */
  function TwoDigits(n: nat): (t: string)
    ensures |t| >= 2 && AllDigits(t) && ValueOf(t) == n
    ensures n < 100 ==> |t| == 2
    ensures n >= 10 ==> t[0] != '0'
  {
    ValueOfNatToString(n);
    if n < 10 then ValueOfLeadingZero(NatToString(n)); "0" + NatToString(n)
    else if n < 100 then NatToStringShort(n); NatToString(n)
    else NatToString(n)
  }

  /** TwoDigits is the string `padStart(2, '0')` makes of `n.toString()`. */
  lemma TwoDigitsIsPadStart(n: nat)
    ensures TwoDigits(n) == PadStart(NatToString(n), 2, '0')
  {
  }
}
