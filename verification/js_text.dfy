/**
  Strings and characters as JavaScript sees them.

  A Dafny `string` is a sequence of Unicode scalar values, while a JavaScript
  string is a sequence of UTF-16 code units: a scalar value outside the Basic
  Multilingual Plane occupies two code units (a surrogate pair). The length
  bounds of the validation rules are stated in code units, so the length used
  throughout is `Utf16Length`, not `|s|`.

  The character predicates follow ECMA-262: `\d` is the ASCII digits, and `\s`
  is the union of WhiteSpace (section 12.2) and LineTerminator (section 12.3).
 */
module JsText {

  /** The value of `s.length` in JavaScript: the number of UTF-16 code units. */
  function Utf16Length(s: string): (n: nat)
    ensures |s| <= n <= 2 * |s|
    ensures IsBmp(s) ==> n == |s|
    ensures (forall k | 0 <= k < |s| :: s[k] as int >= 0x1_0000) ==> n == 2 * |s|
  {
    if |s| == 0 then 0
    else (if s[0] as int < 0x1_0000 then 1 else 2) + Utf16Length(s[1..])
  }

  /** A character inside the Basic Multilingual Plane is one code unit, and
      any other character is two, a surrogate pair. */
  lemma Utf16LengthOfChar(c: char)
    ensures Utf16Length([c]) == if c as int < 0x1_0000 then 1 else 2
  {
    assert [c][1..] == [];
  }

  /** The length of a concatenation is the sum of the lengths: together with
      `Utf16LengthOfChar` this fixes the code-unit length of every string. */
  lemma {:induction false} Utf16LengthAppend(a: string, b: string)
    ensures Utf16Length(a + b) == Utf16Length(a) + Utf16Length(b)
  {
    if |a| == 0 {
      assert a + b == b;
    } else {
      assert (a + b)[0] == a[0];
      assert (a + b)[1..] == a[1..] + b;
      Utf16LengthAppend(a[1..], b);
    }
  }

  /** Every character of `s` is a single UTF-16 code unit. */
  predicate IsBmp(s: string) {
    forall k | 0 <= k < |s| :: s[k] as int < 0x1_0000
  }

  predicate IsAsciiUpper(c: char) { 'A' <= c <= 'Z' }

  predicate IsAsciiLower(c: char) { 'a' <= c <= 'z' }

  predicate IsAsciiLetter(c: char) { IsAsciiUpper(c) || IsAsciiLower(c) }

  /** `\d`: the ten ASCII digits and nothing else (no Unicode digits). */
  predicate IsAsciiDigit(c: char) { '0' <= c <= '9' }

  predicate IsAsciiAlphanumeric(c: char) { IsAsciiLetter(c) || IsAsciiDigit(c) }

  /** The code points of Unicode general category Zs (space separators). */
  predicate IsSpaceSeparator(c: char) {
    || c == ' '
    || c == '\U{00A0}'
    || c == '\U{1680}'
    || '\U{2000}' <= c <= '\U{200A}'
    || c == '\U{202F}'
    || c == '\U{205F}'
    || c == '\U{3000}'
  }

  /** WhiteSpace: TAB, VT, FF, ZWNBSP and every space separator. */
  predicate IsWhiteSpace(c: char) {
    c == '\t' || c == '\U{000B}' || c == '\U{000C}' || c == '\U{FEFF}' || IsSpaceSeparator(c)
  }

  /** LineTerminator: LF, CR, LINE SEPARATOR and PARAGRAPH SEPARATOR. */
  predicate IsLineTerminator(c: char) {
    c == '\n' || c == '\r' || c == '\U{2028}' || c == '\U{2029}'
  }

  /** The class `\s`. */
  predicate IsRegExpSpace(c: char) { IsWhiteSpace(c) || IsLineTerminator(c) }

  /** Lower-cases the ASCII letters of `s` and leaves every other character alone. */
  function AsciiLowerCase(s: string): (r: string)
    ensures |r| == |s|
    ensures forall k | 0 <= k < |s| :: IsAsciiUpper(s[k]) ==> IsAsciiLower(r[k]) && r[k] as int == s[k] as int + 32
    ensures forall k | 0 <= k < |s| :: !IsAsciiUpper(s[k]) ==> r[k] == s[k]
  {
    seq(|s|, k requires 0 <= k < |s| => if IsAsciiUpper(s[k]) then (s[k] as int + 32) as char else s[k])
  }
}
