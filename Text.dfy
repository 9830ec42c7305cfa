/** String helpers the services rely on: .NET's whitespace test, ASCII lower-casing,
    substring search, ordinal comparison and fixed-width decimal digits. */
module Text {

  /** char.IsWhiteSpace: the Unicode White_Space characters. */
  predicate IsWhiteSpace(c: char)
  {
    ('\U{9}' <= c <= '\U{D}') || c == ' ' || c == '\U{85}' || c == '\U{A0}'
    || c == '\U{1680}' || ('\U{2000}' <= c <= '\U{200A}') || c == '\U{2028}' || c == '\U{2029}'
    || c == '\U{202F}' || c == '\U{205F}' || c == '\U{3000}'
  }

  /** string.IsNullOrWhiteSpace for a non-null string: empty, or whitespace only. */
  predicate IsBlank(s: string)
  {
    forall i | 0 <= i < |s| :: IsWhiteSpace(s[i])
  }

  function LowerChar(c: char): char
  {
    if 'A' <= c <= 'Z' then (c as int - 'A' as int + 'a' as int) as char else c
  }

  /** ToLower, restricted to the Basic Latin letters A-Z. */
  function ToLower(s: string): (r: string)
    ensures |r| == |s|
    ensures forall i | 0 <= i < |s| :: r[i] == LowerChar(s[i])
  {
    if s == [] then [] else [LowerChar(s[0])] + ToLower(s[1..])
  }

  lemma ToLowerIdempotent(s: string)
    ensures ToLower(ToLower(s)) == ToLower(s)
  {
    var t := ToLower(s);
    assert forall i | 0 <= i < |t| :: LowerChar(t[i]) == t[i];
  }

  /** string.Contains: `sub` occurs in `s` at some position. */
  predicate Contains(s: string, sub: string)
  {
    exists i | 0 <= i <= |s| - |sub| :: OccursAt(s, sub, i)
  }

  predicate OccursAt(s: string, sub: string, i: int)
  {
    0 <= i <= |s| - |sub| && s[i..i + |sub|] == sub
  }

  /** Ordinal comparison: `a` sorts at or before `b`, character by character. */
  predicate LexLe(a: string, b: string)
  {
    if a == [] then true
    else if b == [] then false
    else if a[0] < b[0] then true
    else if b[0] < a[0] then false
    else LexLe(a[1..], b[1..])
  }

  lemma {:induction false} LexLeTotal(a: string, b: string)
    ensures LexLe(a, b) || LexLe(b, a)
  {
    if a != [] && b != [] && a[0] == b[0] {
      LexLeTotal(a[1..], b[1..]);
    }
  }

  lemma {:induction false} LexLeTransitive(a: string, b: string, c: string)
    requires LexLe(a, b) && LexLe(b, c)
    ensures LexLe(a, c)
  {
    if a != [] && b != [] && c != [] && a[0] == b[0] == c[0] {
      LexLeTransitive(a[1..], b[1..], c[1..]);
    }
  }

  function DigitChar(d: nat): char
    requires d < 10
  {
    ('0' as int + d) as char
  }

  function Pow10(n: nat): (r: nat)
    ensures r >= 1
  {
    if n == 0 then 1 else 10 * Pow10(n - 1)
  }

  predicate IsDigit(c: char)
  {
    '0' <= c <= '9'
  }

  /** The `width` low-order decimal digits of `n`, zero-padded (the "D4"/"yyyy" style
      of .NET's numeric and date formatting). */
  function Digits(n: nat, width: nat): (r: string)
    ensures |r| == width
    ensures forall i | 0 <= i < |r| :: IsDigit(r[i])
  {
    if width == 0 then "" else Digits(n / 10, width - 1) + [DigitChar(n % 10)]
  }

  /** The number a string of decimal digits denotes. */
  function DigitsValue(s: string): nat
    requires forall i | 0 <= i < |s| :: IsDigit(s[i])
  {
    if s == [] then 0
    else
      assert IsDigit(s[|s| - 1]);
      DigitsValue(s[..|s| - 1]) * 10 + (s[|s| - 1] as int - '0' as int)
  }

  /** Reading back the digits of a number that fits the width gives the number. */
  lemma {:induction false} DigitsRoundTrip(n: nat, width: nat)
    requires n < Pow10(width)
    ensures DigitsValue(Digits(n, width)) == n
  {
    if width > 0 {
      var d := Digits(n, width);
      DigitsRoundTrip(n / 10, width - 1);
      assert d[..|d| - 1] == Digits(n / 10, width - 1);
    }
  }

  function NatToString(n: nat): string
  {
    if n < 10 then [DigitChar(n)] else NatToString(n / 10) + [DigitChar(n % 10)]
  }

  /** Int32.ToString for the messages of the services. */
  function IntToString(i: int): string
  {
    if i < 0 then "-" + NatToString(-i) else NatToString(i)
  }
}
