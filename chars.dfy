/**
 * Character classes used by the regular expressions of the assembler.
 * Letters, digits and word characters are the ASCII ones; whitespace is the
 * full set on which Python's `str.isspace` (and `\s`) holds.
 */
module Chars {

  predicate IsDigit(c: char) { '0' <= c <= '9' }

  predicate IsUpperLetter(c: char) { 'A' <= c <= 'Z' }

  predicate IsLowerLetter(c: char) { 'a' <= c <= 'z' }

  /** `[A-Za-z]` */
  predicate IsLetter(c: char) { IsUpperLetter(c) || IsLowerLetter(c) }

  /** `[a-fA-F0-9]` */
  predicate IsHexDigit(c: char) { IsDigit(c) || 'a' <= c <= 'f' || 'A' <= c <= 'F' }

  /** `[01]` */
  predicate IsBinDigit(c: char) { c == '0' || c == '1' }

  /** `\w` restricted to ASCII, which is also the class `[A-Za-z0-9_]` */
  predicate IsWordChar(c: char) { IsLetter(c) || IsDigit(c) || c == '_' }

  /** `[A-Za-z-]`, the characters of an option name */
  predicate IsOptionChar(c: char) { IsLetter(c) || c == '-' }

  /** `\s`: the characters on which `str.isspace()` holds */
  predicate IsSpace(c: char) {
    var n := c as int;
    (9 <= n <= 13) || (28 <= n <= 32) || n == 0x85 || n == 0xA0 || n == 0x1680
    || (0x2000 <= n <= 0x200A) || n == 0x2028 || n == 0x2029 || n == 0x202F
    || n == 0x205F || n == 0x3000
  }

  /** The characters at which `str.splitlines()` breaks a line */
  predicate IsLineBreak(c: char) {
    var n := c as int;
    (10 <= n <= 13) || (28 <= n <= 30) || n == 0x85 || n == 0x2028 || n == 0x2029
  }

  /** The line feed, the only character the rewrites insert as a line break */
  predicate IsNewline(c: char) { c == '\n' }

  /** `str.upper()` on one character, for ASCII letters */
  function ToUpper(c: char): (u: char)
    ensures !IsLowerLetter(u)
    ensures IsLowerLetter(c) ==> IsUpperLetter(u)
    ensures !IsLowerLetter(c) ==> u == c
  {
    if IsLowerLetter(c) then (c as int - 32) as char else c
  }

  /** `s.upper()` for ASCII letters */
  function UpperString(s: string): (r: string)
    ensures |r| == |s|
    ensures forall k | 0 <= k < |s| :: r[k] == ToUpper(s[k])
  {
    if s == [] then [] else [ToUpper(s[0])] + UpperString(s[1..])
  }

  /** The character classes that the patterns repeat with `+`, `*` or `{m,n}`. */
  datatype CharClass = Digits | Letters | HexDigits | BinDigits | OptionChars | WordChars | Spaces

  predicate InClass(cc: CharClass, c: char) {
    match cc
    case Digits => IsDigit(c)
    case Letters => IsLetter(c)
    case HexDigits => IsHexDigit(c)
    case BinDigits => IsBinDigit(c)
    case OptionChars => IsOptionChar(c)
    case WordChars => IsWordChar(c)
    case Spaces => IsSpace(c)
  }

  /**
   * Length of the longest run of characters of class `cc` that starts at
   * position `i` of `s`: what a greedy `[...]+` or `[...]*` consumes.
   */
  function Span(s: string, i: nat, cc: CharClass): (n: nat)
    requires i <= |s|
    ensures i + n <= |s|
    ensures i + n == |s| || !InClass(cc, s[i + n])
    decreases |s| - i
  {
    if i < |s| && InClass(cc, s[i]) then 1 + Span(s, i + 1, cc) else 0
  }

  /** Every character of the run that `Span` measures belongs to the class. */
  lemma {:induction false} SpanInClass(s: string, i: nat, cc: CharClass)
    requires i <= |s|
    ensures forall k | i <= k < i + Span(s, i, cc) :: InClass(cc, s[k])
    decreases |s| - i
  {
    if i < |s| && InClass(cc, s[i]) {
      SpanInClass(s, i + 1, cc);
    }
  }

  /** A run of `n` characters of the class that ends the string or a character outside it is what `Span` measures. */
  lemma {:induction false} SpanOfRun(s: string, i: nat, n: nat, cc: CharClass)
    requires i + n <= |s|
    requires forall k | i <= k < i + n :: InClass(cc, s[k])
    requires i + n == |s| || !InClass(cc, s[i + n])
    ensures Span(s, i, cc) == n
    decreases n
  {
    if n > 0 {
      SpanOfRun(s, i + 1, n - 1, cc);
    }
  }

  /** True when `s` holds `c` at position `i`. */
  predicate At(s: string, i: nat, c: char) {
    i < |s| && s[i] == c
  }

  /** `\b`: one side of position `i` is a word character and the other is not. */
  predicate WordBoundary(s: string, i: nat)
    requires i <= |s|
  {
    (i > 0 && IsWordChar(s[i - 1])) != (i < |s| && IsWordChar(s[i]))
  }
}
