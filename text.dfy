/**
 * Character classes and string helpers with the meaning JavaScript gives
 * them in the dashboard's regular expressions and string methods.
 */
module Text {

  predicate IsUpper(c: char) { 'A' <= c <= 'Z' }

  predicate IsLower(c: char) { 'a' <= c <= 'z' }

  /** `[A-Za-z]` */
  predicate IsAsciiLetter(c: char) { IsUpper(c) || IsLower(c) }

  /** `[0-9]`, which is also JavaScript's `\d` */
  predicate IsDigit(c: char) { '0' <= c <= '9' }

  /** `[A-Za-z0-9]` */
  predicate IsAlphanumeric(c: char) { IsAsciiLetter(c) || IsDigit(c) }

  /**
   * JavaScript's `\s`: the ECMAScript white space (tab, vertical tab, form
   * feed, the byte order mark and every space separator) and the line
   * terminators (line feed, carriage return, U+2028, U+2029).
   */
  predicate IsJsSpace(c: char)
  {
    || c == '\t' || c == '\n' || c == '\U{B}' || c == '\U{C}' || c == '\r'
    || c == ' ' || c == '\U{A0}' || c == '\U{1680}' || ('\U{2000}' <= c <= '\U{200A}')
    || c == '\U{2028}' || c == '\U{2029}' || c == '\U{202F}' || c == '\U{205F}'
    || c == '\U{3000}' || c == '\U{FEFF}'
  }

  function UpperChar(c: char): (u: char)
    ensures IsLower(c) ==> IsUpper(u)
    ensures !IsLower(c) ==> u == c
  {
    if IsLower(c) then (c as int - 32) as char else c
  }

  function LowerChar(c: char): (l: char)
    ensures IsUpper(c) ==> IsLower(l)
    ensures !IsUpper(c) ==> l == c
  {
    if IsUpper(c) then (c as int + 32) as char else c
  }

  /** `toUpperCase()` restricted to the ASCII letters. */
  function UpperAscii(s: string): (r: string)
    ensures |r| == |s|
  {
    if s == [] then [] else [UpperChar(s[0])] + UpperAscii(s[1..])
  }

  /** `toLowerCase()` restricted to the ASCII letters. */
  function LowerAscii(s: string): (r: string)
    ensures |r| == |s|
  {
    if s == [] then [] else [LowerChar(s[0])] + LowerAscii(s[1..])
  }

  /** Each position of the upper-cased string is the upper-cased character. */
  lemma {:induction false} UpperAsciiAt(s: string, i: int)
    requires 0 <= i < |s|
    ensures UpperAscii(s)[i] == UpperChar(s[i])
  {
    if i > 0 {
      UpperAsciiAt(s[1..], i - 1);
    }
  }

  /** Each position of the lower-cased string is the lower-cased character. */
  lemma {:induction false} LowerAsciiAt(s: string, i: int)
    requires 0 <= i < |s|
    ensures LowerAscii(s)[i] == LowerChar(s[i])
  {
    if i > 0 {
      LowerAsciiAt(s[1..], i - 1);
    }
  }

  /** A string with no lower-case ASCII letter is its own upper case. */
  lemma {:induction false} UpperAsciiFixes(s: string)
    requires forall i :: 0 <= i < |s| ==> !IsLower(s[i])
    ensures UpperAscii(s) == s
  {
    if s != [] {
      UpperAsciiFixes(s[1..]);
      assert [s[0]] + s[1..] == s;
    }
  }

  /** Lower-casing forgets the case the input was written in. */
  lemma LowerAsciiIgnoresCase(s: string)
    ensures LowerAscii(UpperAscii(s)) == LowerAscii(s)
    ensures LowerAscii(LowerAscii(s)) == LowerAscii(s)
  {
    forall i | 0 <= i < |s|
      ensures LowerAscii(UpperAscii(s))[i] == LowerAscii(s)[i]
      ensures LowerAscii(LowerAscii(s))[i] == LowerAscii(s)[i]
    {
      UpperAsciiAt(s, i);
      LowerAsciiAt(UpperAscii(s), i);
      LowerAsciiAt(s, i);
      LowerAsciiAt(LowerAscii(s), i);
    }
  }

  /** `sub` occurs in `s` starting at index `i`. */
  predicate OccursAt(s: string, sub: string, i: nat)
  {
    i + |sub| <= |s| && s[i..i + |sub|] == sub
  }

  /** JavaScript's `s.includes(sub)`. */
  predicate Contains(s: string, sub: string)
  {
    exists i: nat | i <= |s| :: OccursAt(s, sub, i)
  }

  /** Every string includes the empty string and itself. */
  lemma ContainsTrivially(s: string)
    ensures Contains(s, "")
    ensures Contains(s, s)
  {
    assert OccursAt(s, "", 0);
    assert OccursAt(s, s, 0);
  }
}
