/** The JavaScript string built-ins the quiz screens rely on:
    `String.prototype.trim` (blankness tests) and `parseInt` (time-limit field). */
module Text {
  import opened QuizModel
  import opened Decimal

  /** The characters ECMAScript's `trim` strips: WhiteSpace (tab, vertical tab,
      form feed, space, no-break space, byte-order mark and the space separators
      of Unicode category Zs) and LineTerminator (LF, CR, LS, PS). */
  predicate IsWhitespace(c: char) {
    c == '\t' || c == '\n' || c == '\U{000B}' || c == '\U{000C}' || c == '\r' || c == ' '
    || c == '\U{00A0}' || c == '\U{1680}' || ('\U{2000}' <= c <= '\U{200A}')
    || c == '\U{2028}' || c == '\U{2029}' || c == '\U{202F}' || c == '\U{205F}'
    || c == '\U{3000}' || c == '\U{FEFF}'
  }

  predicate AllWhitespace(s: string) {
    forall i :: 0 <= i < |s| ==> IsWhitespace(s[i])
  }

  /** `s.trimStart()`: the suffix of `s` left after its leading whitespace. */
  function TrimStart(s: string): (r: string)
    ensures |r| <= |s| && r == s[|s| - |r|..]
    ensures AllWhitespace(s[..|s| - |r|])
    ensures r == [] || !IsWhitespace(r[0])
  {
    if s != [] && IsWhitespace(s[0]) then TrimStart(s[1..]) else s
  }

  /** `s.trimEnd()`: the prefix of `s` left after its trailing whitespace. */
  function TrimEnd(s: string): (r: string)
    ensures |r| <= |s| && r == s[..|r|]
    ensures AllWhitespace(s[|r|..])
    ensures r == [] || !IsWhitespace(r[|r| - 1])
  {
    if s != [] && IsWhitespace(s[|s| - 1]) then TrimEnd(s[..|s| - 1]) else s
  }

  /** `s.trim()`: the middle slice of `s` left once the whitespace at both
      ends is cut; it neither starts nor ends with whitespace. */
  function Trim(s: string): (r: string)
    ensures var k := |s| - |TrimStart(s)|;
      && k + |r| <= |s| && r == s[k..k + |r|]
      && AllWhitespace(s[..k]) && AllWhitespace(s[k + |r|..])
    ensures r == [] || (!IsWhitespace(r[0]) && !IsWhitespace(r[|r| - 1]))
  {
    var t := TrimStart(s);
    var r := TrimEnd(t);
    assert t == s[|s| - |t|..];
    assert s[|s| - |t| + |r|..] == t[|r|..];
    r
  }

  /** `!s.trim()`: the string is all whitespace (its trimmed form is the empty,
      falsy string; see TrimEmptyIffBlank). */
  predicate IsBlank(s: string) {
    AllWhitespace(s)
  }

  /** `trim()` leaves nothing exactly when every character is whitespace. */
  lemma TrimEmptyIffBlank(s: string)
    ensures Trim(s) == [] <==> IsBlank(s)
  {
    var t := TrimStart(s);
    var k := |s| - |t|;
    if Trim(s) == [] {
      assert s == s[..k] + s[k..];
    }
  }

  /** The digits `parseInt` reads: the longest prefix of `s` made of digits. */
  function LeadingDigits(s: string): (d: string)
    ensures |d| <= |s| && d == s[..|d|] && AllDigits(d)
    ensures |d| < |s| ==> !IsDigit(s[|d|])
  {
    if s != [] && IsDigit(s[0]) then [s[0]] + LeadingDigits(s[1..]) else []
  }

  /** `parseInt(text)` for decimal text: skip leading whitespace, take one
      optional sign, then the longest run of digits; no digit at all gives NaN,
      written None. */
  function ParseInt(text: string): (r: Option<int>)
    ensures TrimStart(text) == [] ==> r == None
    ensures r.Some? && r.value < 0 ==> TrimStart(text)[0] == '-'
  {
    var t := TrimStart(text);
    var negative := t != [] && t[0] == '-';
    var rest := if t != [] && (t[0] == '-' || t[0] == '+') then t[1..] else t;
    var digits := LeadingDigits(rest);
    if digits == [] then None
    else Some(if negative then -(ValueOf(digits) as int) else ValueOf(digits))
  }

  /** parseInt reads back what `toString` writes. */
  lemma ParseIntNatToString(n: nat)
    ensures ParseInt(NatToString(n)) == Some(n)
  {
    var s := NatToString(n);
    ValueOfNatToString(n);
    ParseIntOfDigits(s);
  }

  /** A non-empty digit string parses to the value it denotes. */
  lemma ParseIntOfDigits(s: string)
    requires s != [] && AllDigits(s)
    ensures ParseInt(s) == Some(ValueOf(s))
  {
    assert !IsWhitespace(s[0]);
    assert TrimStart(s) == s;
    assert s[0] != '-' && s[0] != '+';
    AllDigitsAreLeading(s);
  }

  lemma {:induction false} AllDigitsAreLeading(s: string)
    requires AllDigits(s)
    ensures LeadingDigits(s) == s
  {
    if s != [] {
      AllDigitsAreLeading(s[1..]);
    }
  }

  /** Text with no digit anywhere parses to NaN; in particular the empty text does. */
  lemma ParseIntWithoutDigits(text: string)
    requires forall i :: 0 <= i < |text| ==> !IsDigit(text[i])
    ensures ParseInt(text) == None
  {
    var t := TrimStart(text);
    var rest := if t != [] && (t[0] == '-' || t[0] == '+') then t[1..] else t;
    if rest != [] {
      assert rest[0] == text[|text| - |rest|];
    }
  }
}
