/** Character classes and string checks shared by the validation
    annotations, plus Java's decimal rendering of `long` values used in
    exception messages and property paths. */
module Text {
  import opened Wrappers

  /** `[a-zA-Z]` */
  predicate IsAsciiLetter(c: char) {
    'a' <= c <= 'z' || 'A' <= c <= 'Z'
  }

  /** `[0-9]` */
  predicate IsAsciiDigit(c: char) {
    '0' <= c <= '9'
  }

  /** `\w` of java.util.regex without UNICODE_CHARACTER_CLASS: `[a-zA-Z_0-9]`. */
  predicate IsWordChar(c: char) {
    IsAsciiLetter(c) || IsAsciiDigit(c) || c == '_'
  }

  /** The characters `String.trim()` strips: every code point up to U+0020. */
  predicate IsTrimmable(c: char) {
    c <= ' '
  }

  /** `s.trim()` is non-empty. */
  predicate HasText(s: string) {
    exists i :: 0 <= i < |s| && !IsTrimmable(s[i])
  }

  /** `@NotBlank`: non-null, and non-empty once trimmed. */
  predicate NotBlank(s: Option<string>) {
    s.Some? && HasText(s.value)
  }

  /** `@Size(min, max)` on a string; a null value is valid. */
  predicate SizeBetween(s: Option<string>, min: nat, max: nat) {
    s.None? || min <= |s.value| <= max
  }

  /** `@Size(min)` on a string (no upper bound); a null value is valid. */
  predicate SizeAtLeast(s: Option<string>, min: nat) {
    s.None? || min <= |s.value|
  }

  /** `@Pattern(regexp = "^[a-zA-Z]*$")`; a null value is valid. */
  predicate LettersOnly(s: Option<string>) {
    s.None? || forall i :: 0 <= i < |s.value| ==> IsAsciiLetter(s.value[i])
  }

  /** Java string concatenation renders `null` as the text "null". */
  function Show(s: Option<string>): (shown: string) {
    match s
    case None => "null"
    case Some(v) => v
  }

  function DigitChar(d: nat): (c: char)
    requires d < 10
    ensures IsAsciiDigit(c)
    ensures DigitValue(c) == d
  {
    ('0' as int + d) as char
  }

  function DigitValue(c: char): (d: nat)
    requires IsAsciiDigit(c)
  {
    c as int - '0' as int
  }

  predicate AllDigits(s: string) {
    forall i :: 0 <= i < |s| ==> IsAsciiDigit(s[i])
  }

  /** `Long.toString` of a non-negative value: no sign, no leading zeros. */
  function NatToString(n: nat): (s: string)
    ensures 1 <= |s|
    ensures AllDigits(s)
    ensures s[0] != '0' || n == 0
    decreases n
  {
    if n < 10 then [DigitChar(n)]
    else NatToString(n / 10) + [DigitChar(n % 10)]
  }

  /** Reads a decimal numeral back. */
  function ParseNat(s: string): (n: nat)
    requires AllDigits(s)
    decreases |s|
  {
    if s == [] then 0
    else ParseNat(s[..|s| - 1]) * 10 + DigitValue(s[|s| - 1])
  }

  /** The decimal rendering loses nothing: parsing it gives the number back. */
  lemma {:induction false} ParseNatToString(n: nat)
    ensures ParseNat(NatToString(n)) == n
    decreases n
  {
    var s := NatToString(n);
    if n >= 10 {
      ParseNatToString(n / 10);
      assert s[..|s| - 1] == NatToString(n / 10);
    }
  }

  /** `Long.toString`: a minus sign before the magnitude of a negative value. */
  function IntToString(n: int): (s: string)
    ensures 1 <= |s|
  {
    if n < 0 then "-" + NatToString(-n) else NatToString(n)
  }

  /** Distinct numbers render as distinct texts. */
  lemma IntToStringInjective(a: int, b: int)
    requires IntToString(a) == IntToString(b)
    ensures a == b
  {
    if a < 0 && b < 0 {
      assert NatToString(-a) == IntToString(a)[1..];
      assert NatToString(-b) == IntToString(b)[1..];
      ParseNatToString(-a);
      ParseNatToString(-b);
    } else if a >= 0 && b >= 0 {
      ParseNatToString(a);
      ParseNatToString(b);
    }
  }

  /** A text framed by a fixed prefix and suffix determines what lies between. */
  lemma ConcatCancel(prefix: string, x: string, y: string, suffix: string)
    requires prefix + x + suffix == prefix + y + suffix
    ensures x == y
  {
    assert |x| == |y|;
    assert x == (prefix + x + suffix)[|prefix| .. |prefix| + |x|];
    assert y == (prefix + y + suffix)[|prefix| .. |prefix| + |y|];
  }
}
