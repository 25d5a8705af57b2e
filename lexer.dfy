/**
 * The lexer: `clean_line`, the ordered token patterns combined into one
 * alternation, and the `finditer` scan of `tokenize`.
 *
 * Each pattern is an explicit matcher that reports how many characters it
 * consumes at a position (0 when it does not match). The combined
 * alternation tries the patterns in list order and the first one that
 * matches wins, as Python's `re` does for `A|B|C`.
 */
module Lexer {
  import opened Wrappers
  import opened Chars
  import opened Include

  // ---------------------------------------------------------------------------
  // clean_line
  // ---------------------------------------------------------------------------

  /** Unicode general category Cc: the C0 and C1 control characters and DEL. */
  predicate IsControl(c: char) { c as int < 32 || 127 <= c as int < 160 }

  /** A character that `clean_line` keeps. */
  predicate Kept(c: char) { !IsControl(c) && c != ' ' }

  /** Holds of a line on which `clean_line` has nothing left to do. */
  predicate IsClean(s: string) {
    forall k | 0 <= k < |s| :: Kept(s[k]) && !IsLowerLetter(s[k])
  }

  predicate NoNewline(s: string) {
    forall k | 0 <= k < |s| :: !IsNewline(s[k])
  }

  predicate NoLowercase(s: string) {
    forall k | 0 <= k < |s| :: !IsLowerLetter(s[k])
  }

  /** `clean_line`: drop control characters and spaces, then upper-case. */
  function CleanLine(line: string): (r: string)
    ensures |r| <= |line|
    ensures IsClean(r)
  {
    if line == [] then []
    else (if Kept(line[0]) then [ToUpper(line[0])] else []) + CleanLine(line[1..])
  }

  /** A line is left unchanged by `clean_line` exactly when it is already clean. */
  lemma {:induction false} CleanLineFixpoint(s: string)
    ensures CleanLine(s) == s <==> IsClean(s)
  {
    if s != [] {
      CleanLineFixpoint(s[1..]);
      if IsClean(s) {
        assert IsClean(s[1..]) by {
          forall k | 0 <= k < |s[1..]| ensures Kept(s[1..][k]) && !IsLowerLetter(s[1..][k]) {
            assert s[1..][k] == s[k + 1];
          }
        }
      }
    }
  }

  /** Cleaning twice is cleaning once. */
  lemma {:induction false} CleanLineIdempotent(s: string)
    ensures CleanLine(CleanLine(s)) == CleanLine(s)
  {
    CleanLineFixpoint(CleanLine(s));
  }

  /** Mnemonics, literals and option names are case-insensitive: upper-casing first changes nothing. */
  lemma {:induction false} CleanLineIgnoresCase(s: string)
    ensures CleanLine(UpperString(s)) == CleanLine(s)
  {
    if s != [] {
      assert UpperString(s)[1..] == UpperString(s[1..]);
      CleanLineIgnoresCase(s[1..]);
    }
  }

  /** A cleaned line holds no newline, so every position of it yields a token. */
  lemma {:induction false} CleanLineHasNoNewline(line: string)
    ensures NoNewline(CleanLine(line)) && NoLowercase(CleanLine(line))
  {
  }

  // ---------------------------------------------------------------------------
  // token patterns
  // ---------------------------------------------------------------------------

  function Min(a: nat, b: nat): nat { if a <= b then a else b }

  /** A one-character class such as `[#]`. */
  function Single(s: string, i: nat, c: char): (n: nat)
    requires i <= |s|
    ensures n <= 1 && i + n <= |s|
    ensures n == 1 <==> i < |s| && s[i] == c
  {
    if i < |s| && s[i] == c then 1 else 0
  }

  /**
   * `(0x[a-fA-F0-9]{H}|\$[a-fA-F0-9]{H}|0b[01]{B}|\d{1,D})`, the shape of
   * both numeric-literal patterns: the first alternative that matches wins,
   * and `\d{1,D}` is greedy.
   */
  function NumberMatch(s: string, i: nat, hex: nat, bin: nat, dec: nat): (n: nat)
    requires i <= |s|
    ensures i + n <= |s|
  {
    if At(s, i, '0') && At(s, i + 1, 'x') && Span(s, i + 2, HexDigits) >= hex then 2 + hex
    else if At(s, i, '$') && Span(s, i + 1, HexDigits) >= hex then 1 + hex
    else if At(s, i, '0') && At(s, i + 1, 'b') && Span(s, i + 2, BinDigits) >= bin then 2 + bin
    else Min(Span(s, i, Digits), dec)
  }

  /** `\bOPT\b` matches at position `i`. */
  predicate OptWord(s: string, i: nat)
    requires i <= |s|
  {
    WordBoundary(s, i) && At(s, i, 'O') && At(s, i + 1, 'P') && At(s, i + 2, 'T') && WordBoundary(s, i + 3)
  }

  /** `\bOPT\b` */
  function OptMatch(s: string, i: nat): (n: nat)
    requires i <= |s|
    ensures n == 0 || (n == 3 && i + 3 <= |s|)
  {
    if OptWord(s, i) then 3 else 0
  }

  /** `__[A-Za-z-]+` */
  function OptionNameMatch(s: string, i: nat): (n: nat)
    requires i <= |s|
    ensures i + n <= |s|
  {
    if At(s, i, '_') && At(s, i + 1, '_') && Span(s, i + 2, OptionChars) > 0 then 2 + Span(s, i + 2, OptionChars) else 0
  }

  /** `.`: any one character but a newline. */
  function AnyMatch(s: string, i: nat): (n: nat)
    requires i <= |s|
    ensures n <= 1 && i + n <= |s|
  {
    if i < |s| && s[i] != '\n' then 1 else 0
  }

  /** How many characters the pattern of kind `k` consumes at position `i` (0: no match). */
  function PatternMatch(k: TokenType, s: string, i: nat): (n: nat)
    requires i <= |s|
    ensures i + n <= |s|
  {
    match k
    case Opt => OptMatch(s, i)
    case Hash => Single(s, i, '#')
    case Literal16 => NumberMatch(s, i, 4, 16, 5)
    case Literal8 => NumberMatch(s, i, 2, 8, 3)
    case Mnemonic => Span(s, i, Letters)
    case OpenBracket => Single(s, i, '(')
    case CloseBracket => Single(s, i, ')')
    case Comma => Single(s, i, ',')
    case Equals => Single(s, i, '=')
    case Colon => Single(s, i, ':')
    case OptionName => OptionNameMatch(s, i)
    case Unknown => AnyMatch(s, i)
    case Eof => 0
  }

  /** `token_patterns`, in priority order. */
  const TokenPatterns: seq<TokenType> :=
    [Opt, Hash, Literal16, Literal8, Mnemonic, OpenBracket, CloseBracket, Comma, Equals, Colon, OptionName, Unknown]

  /**
   * Searching `token_patterns` from index `from` on: the index of the first
   * pattern that matches at `i`, with the number of characters it consumes,
   * or None when no pattern matches.
   */
  function MatchFrom(s: string, i: nat, from: nat): (r: Option<(nat, nat)>)
    requires i <= |s| && from <= |TokenPatterns|
    ensures r.Some? ==> from <= r.value.0 < |TokenPatterns| && 0 < r.value.1 && i + r.value.1 <= |s|
    decreases |TokenPatterns| - from
  {
    if from == |TokenPatterns| then None
    else if PatternMatch(TokenPatterns[from], s, i) > 0 then Some((from, PatternMatch(TokenPatterns[from], s, i)))
    else MatchFrom(s, i, from + 1)
  }

  /** The search picks the first pattern in list order that matches, and consumes what that pattern matches. */
  lemma {:induction false} MatchFromIsFirst(s: string, i: nat, from: nat)
    requires i <= |s| && from <= |TokenPatterns|
    ensures MatchFrom(s, i, from).None? ==>
      forall q | from <= q < |TokenPatterns| :: PatternMatch(TokenPatterns[q], s, i) == 0
    ensures MatchFrom(s, i, from).Some? ==>
      var (j, n) := MatchFrom(s, i, from).value;
      n == PatternMatch(TokenPatterns[j], s, i) &&
      forall q | from <= q < j :: PatternMatch(TokenPatterns[q], s, i) == 0
    decreases |TokenPatterns| - from
  {
    if from < |TokenPatterns| && PatternMatch(TokenPatterns[from], s, i) == 0 {
      MatchFromIsFirst(s, i, from + 1);
    }
  }

  /** The search from pattern `from` on, with the index replaced by the pattern's kind. */
  function FirstMatchFrom(s: string, i: nat, from: nat): Option<(TokenType, nat)>
    requires i <= |s| && from <= |TokenPatterns|
  {
    match MatchFrom(s, i, from)
    case None => None
    case Some((j, n)) => Some((TokenPatterns[j], n))
  }

  /**
   * The alternation `regex_init` builds, read as a search of the ordered list:
   * the kind of the first pattern that matches at `i` and the length of its match.
   */
  function FirstMatch(s: string, i: nat): (r: Option<(TokenType, nat)>)
    requires i <= |s|
  {
    FirstMatchFrom(s, i, 0)
  }

  /**
   * The same alternation with its matchers written out in list order: this
   * is what the scan uses at each position.
   */
  function Alternation(s: string, i: nat): (r: Option<(TokenType, nat)>)
    requires i <= |s|
    ensures r.Some? ==> 0 < r.value.1 && i + r.value.1 <= |s|
    ensures r.None? <==> i == |s| || s[i] == '\n'
  {
    if OptMatch(s, i) > 0 then Some((Opt, OptMatch(s, i)))
    else if Single(s, i, '#') > 0 then Some((Hash, 1))
    else if NumberMatch(s, i, 4, 16, 5) > 0 then Some((Literal16, NumberMatch(s, i, 4, 16, 5)))
    else if NumberMatch(s, i, 2, 8, 3) > 0 then Some((Literal8, NumberMatch(s, i, 2, 8, 3)))
    else if Span(s, i, Letters) > 0 then Some((Mnemonic, Span(s, i, Letters)))
    else if Single(s, i, '(') > 0 then Some((OpenBracket, 1))
    else if Single(s, i, ')') > 0 then Some((CloseBracket, 1))
    else if Single(s, i, ',') > 0 then Some((Comma, 1))
    else if Single(s, i, '=') > 0 then Some((Equals, 1))
    else if Single(s, i, ':') > 0 then Some((Colon, 1))
    else if OptionNameMatch(s, i) > 0 then Some((OptionName, OptionNameMatch(s, i)))
    else if AnyMatch(s, i) > 0 then Some((Unknown, 1))
    else None
  }

  /** A pattern that matches after patterns that all fail is the one chosen. */
  lemma {:induction false} MatchFromIs(s: string, i: nat, from: nat, j: nat)
    requires i <= |s| && from <= j < |TokenPatterns|
    requires forall q | from <= q < j :: PatternMatch(TokenPatterns[q], s, i) == 0
    requires PatternMatch(TokenPatterns[j], s, i) > 0
    ensures MatchFrom(s, i, from) == Some((j, PatternMatch(TokenPatterns[j], s, i)))
    decreases j - from
  {
    if from < j {
      MatchFromIs(s, i, from + 1, j);
    }
  }

  /** No pattern from index `from` on matches: the search fails. */
  lemma {:induction false} MatchFromNone(s: string, i: nat, from: nat)
    requires i <= |s| && from <= |TokenPatterns|
    requires forall q | from <= q < |TokenPatterns| :: PatternMatch(TokenPatterns[q], s, i) == 0
    ensures MatchFrom(s, i, from).None?
    decreases |TokenPatterns| - from
  {
    if from < |TokenPatterns| {
      MatchFromNone(s, i, from + 1);
    }
  }

  /** One step of the search: pattern `from` either matches or the search moves on. */
  lemma {:induction false} MatchFromStep(s: string, i: nat, from: nat)
    requires i <= |s| && from < |TokenPatterns|
    ensures MatchFrom(s, i, from) ==
      if PatternMatch(TokenPatterns[from], s, i) > 0 then Some((from, PatternMatch(TokenPatterns[from], s, i)))
      else MatchFrom(s, i, from + 1)
  {
  }

  /** Once the literal and mnemonic patterns have failed, the rest of the list decides. */
  lemma {:induction false} AlternationTail(s: string, i: nat)
    requires i <= |s|
    requires OptMatch(s, i) == 0 && Single(s, i, '#') == 0
    requires NumberMatch(s, i, 4, 16, 5) == 0 && NumberMatch(s, i, 2, 8, 3) == 0
    requires Span(s, i, Letters) == 0
    ensures Alternation(s, i) == FirstMatchFrom(s, i, 5)
  {
    assert TokenPatterns[5] == OpenBracket;
    MatchFromStep(s, i, 5);
    if Single(s, i, '(') > 0 { return; }
    assert TokenPatterns[6] == CloseBracket;
    MatchFromStep(s, i, 6);
    if Single(s, i, ')') > 0 { return; }
    assert TokenPatterns[7] == Comma;
    MatchFromStep(s, i, 7);
    if Single(s, i, ',') > 0 { return; }
    assert TokenPatterns[8] == Equals;
    MatchFromStep(s, i, 8);
    if Single(s, i, '=') > 0 { return; }
    assert TokenPatterns[9] == Colon;
    MatchFromStep(s, i, 9);
    if Single(s, i, ':') > 0 { return; }
    assert TokenPatterns[10] == OptionName;
    MatchFromStep(s, i, 10);
    if OptionNameMatch(s, i) > 0 { return; }
    assert TokenPatterns[11] == Unknown;
    MatchFromStep(s, i, 11);
    if AnyMatch(s, i) > 0 { return; }
    assert MatchFrom(s, i, 12) == None;
  }

  /**
   * The written-out alternation is the search of `token_patterns` in list
   * order: at each position the first listed pattern that matches wins, and
   * it consumes what it matches on its own.
   */
  lemma {:induction false} AlternationIsFirstMatch(s: string, i: nat)
    requires i <= |s|
    ensures Alternation(s, i) == FirstMatch(s, i)
  {
    assert TokenPatterns[0] == Opt;
    MatchFromStep(s, i, 0);
    if OptMatch(s, i) > 0 { return; }
    assert TokenPatterns[1] == Hash;
    MatchFromStep(s, i, 1);
    if Single(s, i, '#') > 0 { return; }
    assert TokenPatterns[2] == Literal16;
    MatchFromStep(s, i, 2);
    if NumberMatch(s, i, 4, 16, 5) > 0 { return; }
    assert TokenPatterns[3] == Literal8;
    MatchFromStep(s, i, 3);
    if NumberMatch(s, i, 2, 8, 3) > 0 { return; }
    assert TokenPatterns[4] == Mnemonic;
    MatchFromStep(s, i, 4);
    if Span(s, i, Letters) > 0 { return; }
    AlternationTail(s, i);
  }

  /** The winning pattern consumes what it matches on its own, and every earlier pattern fails there. */
  lemma {:induction false} AlternationIsFirst(s: string, i: nat)
    requires i <= |s|
    ensures Alternation(s, i).Some? ==>
      exists j | 0 <= j < |TokenPatterns| ::
        TokenPatterns[j] == Alternation(s, i).value.0
        && PatternMatch(TokenPatterns[j], s, i) == Alternation(s, i).value.1
        && forall q | 0 <= q < j :: PatternMatch(TokenPatterns[q], s, i) == 0
  {
    AlternationIsFirstMatch(s, i);
    MatchFromIsFirst(s, i, 0);
  }

  // ---------------------------------------------------------------------------
  // tokenize
  // ---------------------------------------------------------------------------

  /**
   * The tokens that `finditer` yields from position `i` on: at each position
   * the winning pattern produces one token and the scan resumes after it; a
   * position no pattern matches (a newline) is stepped over.
   */
  function Scan(s: string, i: nat): seq<Token>
    requires i <= |s|
    decreases |s| - i
  {
    if i == |s| then []
    else
      match Alternation(s, i)
      case None => Scan(s, i + 1)
      case Some((k, n)) => [Token(k, s[i..i + n])] + Scan(s, i + n)
  }

  /** `tokenize`: the scanned tokens followed by the end-of-line token. */
  function Tokens(line: string): seq<Token> {
    Scan(line, 0) + [Token(Eof, "EOF")]
  }

  /** One step of the scan. */
  lemma {:induction false} ScanStep(s: string, i: nat)
    requires i < |s|
    ensures Alternation(s, i).None? ==> Scan(s, i) == Scan(s, i + 1)
    ensures Alternation(s, i).Some? ==>
      Scan(s, i) == [Token(Alternation(s, i).value.0, s[i..i + Alternation(s, i).value.1])]
                    + Scan(s, i + Alternation(s, i).value.1)
  {
  }

  /**
   * One step of `finditer` from position `i`: a newline, which no pattern
   * matches, is stepped over; anywhere else the match found there is
   * appended and the scan resumes after it.
   */
  method NextMatch(line: string, i: nat, tokens: seq<Token>) returns (i': nat, tokens': seq<Token>)
    requires i < |line|
    ensures i < i' <= |line|
    ensures tokens' + Scan(line, i') == tokens + Scan(line, i)
  {
    if line[i] == '\n' {
      ScanSkip(line, i);
      i', tokens' := i + 1, tokens;
    } else {
      var t := TokenAt(line, i);
      var next := ScanCons(line, i);
      AppendKeeps(tokens, t, Scan(line, i), Scan(line, next), tokens + Scan(line, i));
      i', tokens' := i + |t.value|, tokens + [t];
    }
  }

  /** Moving the next element from the pending part to the collected part keeps their concatenation. */
  lemma {:induction false} AppendKeeps<T>(done: seq<T>, x: T, pending: seq<T>, rest: seq<T>, all: seq<T>)
    requires done + pending == all && pending == [x] + rest
    ensures (done + [x]) + rest == all
  {
    assert (done + [x]) + rest == done + ([x] + rest);
  }

  /** `tokenize`, as the loop over the matches that it is. */
  method Tokenize(line: string) returns (tokens: seq<Token>)
    ensures tokens == Tokens(line)
  {
    tokens := [];
    var i := 0;
    while i < |line|
      invariant 0 <= i <= |line|
      invariant tokens + Scan(line, i) == Scan(line, 0)
      decreases |line| - i
    {
      i, tokens := NextMatch(line, i, tokens);
    }
    tokens := tokens + [Token(Eof, "EOF")];
  }

  // ---------------------------------------------------------------------------
  // what the pattern order implies
  // ---------------------------------------------------------------------------

  predicate AllHex(v: string) { forall k | 0 <= k < |v| :: IsHexDigit(v[k]) }

  predicate AllDigits(v: string) { forall k | 0 <= k < |v| :: IsDigit(v[k]) }

  /** `$` followed by exactly `w` hex digits. */
  predicate DollarHex(v: string, w: nat) { |v| == w + 1 && v[0] == '$' && AllHex(v[1..]) }

  /** The characters that make up a token of their own. */
  predicate IsPunctuation(c: char) { c == '#' || c == '(' || c == ')' || c == ',' || c == '=' || c == ':' }

  /** The kind of the one-character token for a punctuation character. */
  function PunctuationKind(c: char): TokenType
    requires IsPunctuation(c)
  {
    if c == '#' then Hash
    else if c == '(' then OpenBracket
    else if c == ')' then CloseBracket
    else if c == ',' then Comma
    else if c == '=' then Equals
    else Colon
  }

  /** `s` starts an option name (`__` and one or more letters or hyphens) at `i`. */
  predicate StartsOption(s: string, i: nat)
    requires i <= |s|
  {
    At(s, i, '_') && At(s, i + 1, '_') && Span(s, i + 2, OptionChars) > 0
  }

  /**
   * The choice the alternation makes at position `i`, told from the
   * character found there: the kind of the winning pattern and the length
   * of its match.
   */
  function Winner(s: string, i: nat): (r: Option<(TokenType, nat)>)
    requires i < |s|
  {
    var c := s[i];
    if c == '\n' then None
    else if IsLetter(c) then
      if OptWord(s, i) then Some((Opt, 3)) else Some((Mnemonic, Span(s, i, Letters)))
    else if IsDigit(c) then Some((Literal16, NumberMatch(s, i, 4, 16, 5)))
    else if c == '$' then
      var h := Span(s, i + 1, HexDigits);
      if h >= 4 then Some((Literal16, 5)) else if h >= 2 then Some((Literal8, 3)) else Some((Unknown, 1))
    else if IsPunctuation(c) then Some((PunctuationKind(c), 1))
    else if StartsOption(s, i) then Some((OptionName, 2 + Span(s, i + 2, OptionChars)))
    else Some((Unknown, 1))
  }

  /**
   * The ordered alternation agrees with the choice read off the character
   * at `i`. At a letter, `OPT` as a whole word wins over the mnemonic run;
   * a digit is always claimed by the 16-bit pattern, which comes before the
   * 8-bit one; `$` makes a 16-bit literal with four hex digits, an 8-bit one
   * with two or three and an unknown token otherwise.
   */
  lemma {:induction false} AlternationByFirstChar(s: string, i: nat)
    requires i < |s|
    ensures Alternation(s, i) == Winner(s, i)
  {
    var c := s[i];
    if IsLetter(c) {
      assert NumberMatch(s, i, 4, 16, 5) == 0 && NumberMatch(s, i, 2, 8, 3) == 0;
    } else if c == '$' {
      assert OptMatch(s, i) == 0;
    } else if !IsDigit(c) && c != '\n' {
      assert Span(s, i, Letters) == 0 && NumberMatch(s, i, 4, 16, 5) == 0 && NumberMatch(s, i, 2, 8, 3) == 0;
    }
  }

  /** The texts the 16-bit literal pattern can produce. */
  predicate Literal16Text(v: string) {
    || (|v| == 6 && v[0] == '0' && v[1] == 'x' && AllHex(v[2..]))
    || DollarHex(v, 4)
    || (|v| == 18 && v[0] == '0' && v[1] == 'b' && forall k | 2 <= k < 18 :: IsBinDigit(v[k]))
    || (1 <= |v| <= 5 && AllDigits(v))
  }

  /** The shape of a token the scan can produce. */
  predicate WellFormedToken(t: Token) {
    |t.value| > 0 &&
    match t.kind
    case Opt => t.value == "OPT"
    case Hash => t.value == "#"
    case Literal16 => Literal16Text(t.value)
    case Literal8 => DollarHex(t.value, 2)
    case Mnemonic => forall k | 0 <= k < |t.value| :: IsLetter(t.value[k])
    case OpenBracket => t.value == "("
    case CloseBracket => t.value == ")"
    case Comma => t.value == ","
    case Equals => t.value == "="
    case Colon => t.value == ":"
    case OptionName =>
      |t.value| >= 3 && t.value[0] == '_' && t.value[1] == '_'
      && forall k | 2 <= k < |t.value| :: IsOptionChar(t.value[k])
    case Unknown =>
      |t.value| == 1 && t.value[0] != '\n' && !IsLetter(t.value[0]) && !IsDigit(t.value[0])
      && !IsPunctuation(t.value[0])
    case Eof => false
  }

  /** What the 16-bit literal pattern consumes at a digit. */
  lemma {:induction false} DigitLiteralShape(s: string, i: nat)
    requires i < |s| && IsDigit(s[i])
    ensures Literal16Text(s[i..i + NumberMatch(s, i, 4, 16, 5)])
  {
    var n := NumberMatch(s, i, 4, 16, 5);
    var v := s[i..i + n];
    assert forall q | 0 <= q < n :: v[q] == s[i + q];
    if i + 2 <= |s| {
      SpanInClass(s, i + 2, HexDigits);
      SpanInClass(s, i + 2, BinDigits);
    }
    SpanInClass(s, i, Digits);
  }

  /** The token the character-based choice produces has the shape of its kind. */
  lemma {:induction false} WinnerWellFormed(s: string, i: nat)
    requires i < |s| && s[i] != '\n'
    ensures Winner(s, i).Some?
    ensures WellFormedToken(Token(Winner(s, i).value.0, s[i..i + Winner(s, i).value.1]))
  {
    var c := s[i];
    var (k, n) := Winner(s, i).value;
    var v := s[i..i + n];
    assert forall q | 0 <= q < n :: v[q] == s[i + q];
    if IsLetter(c) {
      SpanInClass(s, i, Letters);
    } else if IsDigit(c) {
      DigitLiteralShape(s, i);
    } else if c == '$' {
      SpanInClass(s, i + 1, HexDigits);
    } else if !IsPunctuation(c) && StartsOption(s, i) {
      SpanInClass(s, i + 2, OptionChars);
    }
  }

  /** The token produced at one position has the shape of its kind. */
  lemma {:induction false} TokenAtWellFormed(s: string, i: nat)
    requires i < |s| && s[i] != '\n'
    ensures Alternation(s, i).Some?
    ensures WellFormedToken(Token(Alternation(s, i).value.0, s[i..i + Alternation(s, i).value.1]))
  {
    AlternationByFirstChar(s, i);
    WinnerWellFormed(s, i);
  }

  /** The token the scan emits at position `i`, where the alternation matches. */
  function TokenAt(s: string, i: nat): Token
    requires i < |s| && s[i] != '\n'
  {
    Token(Alternation(s, i).value.0, s[i..i + Alternation(s, i).value.1])
  }

  /** At a newline the scan emits nothing. */
  lemma {:induction false} ScanSkip(s: string, i: nat)
    requires i < |s| && s[i] == '\n'
    ensures Scan(s, i) == Scan(s, i + 1)
  {
  }

  /** Elsewhere it emits the token found there and resumes after it. */
  lemma {:induction false} ScanCons(s: string, i: nat) returns (next: nat)
    requires i < |s| && s[i] != '\n'
    ensures i < next <= |s| && Scan(s, i) == [TokenAt(s, i)] + Scan(s, next)
    ensures TokenAt(s, i).value == s[i..next]
  {
    var (k, n) := Alternation(s, i).value;
    next := i + n;
    ScanStep(s, i);
    assert TokenAt(s, i) == Token(k, s[i..next]);
  }

  /** A property of every token emitted from `i` on holds of every token of the scan. */
  lemma {:induction false} ScanAll(s: string, i: nat, p: Token -> bool)
    requires i <= |s|
    requires forall j | i <= j < |s| && s[j] != '\n' :: p(TokenAt(s, j))
    ensures forall t | t in Scan(s, i) :: p(t)
    decreases |s| - i
  {
    if i < |s| {
      if s[i] == '\n' {
        ScanSkip(s, i);
        ScanAll(s, i + 1, p);
      } else {
        var next := ScanCons(s, i);
        ScanAll(s, next, p);
      }
    }
  }

  /** Every scanned token is well formed, and none of them is the end-of-line token. */
  lemma {:induction false} ScanWellFormed(s: string, i: nat)
    requires i <= |s|
    ensures forall t | t in Scan(s, i) :: WellFormedToken(t) && t.kind != Eof
  {
    forall j | i <= j < |s| && s[j] != '\n' ensures WellFormedToken(TokenAt(s, j)) && TokenAt(s, j).kind != Eof {
      TokenAtWellFormed(s, j);
    }
    ScanAll(s, i, t => WellFormedToken(t) && t.kind != Eof);
  }

  /**
   * `tokenize` always ends with exactly one end-of-line token, every other
   * token is well formed, and every token has a non-empty text.
   */
  lemma {:induction false} TokensShape(line: string)
    ensures |Tokens(line)| >= 1 && Tokens(line)[|Tokens(line)| - 1] == Token(Eof, "EOF")
    ensures forall k | 0 <= k < |Tokens(line)| - 1 ::
      WellFormedToken(Tokens(line)[k]) && Tokens(line)[k].kind != Eof
    ensures forall k | 0 <= k < |Tokens(line)| :: |Tokens(line)[k].value| > 0
  {
    ScanWellFormed(line, 0);
    var ts := Tokens(line);
    forall k | 0 <= k < |ts| - 1 ensures WellFormedToken(ts[k]) && ts[k].kind != Eof {
      assert ts[k] in Scan(line, 0);
    }
  }

  /** The texts of a token list joined together. */
  function Concat(ts: seq<Token>): string {
    if ts == [] then [] else ts[0].value + Concat(ts[1..])
  }

  lemma {:induction false} ScanConcat(s: string, i: nat)
    requires i <= |s| && NoNewline(s)
    ensures Concat(Scan(s, i)) == s[i..]
    decreases |s| - i
  {
    if i < |s| {
      var next := ScanCons(s, i);
      var rest := Scan(s, next);
      ScanConcat(s, next);
      assert ([TokenAt(s, i)] + rest)[1..] == rest;
      assert s[i..] == s[i..next] + s[next..];
    }
  }

  /** On a newline-free line the token texts (without the end-of-line token) rebuild the line. */
  lemma {:induction false} TokensRebuildLine(line: string)
    requires NoNewline(line)
    ensures Concat(Tokens(line)[..|Tokens(line)| - 1]) == line
  {
    ScanConcat(line, 0);
    assert Tokens(line)[..|Tokens(line)| - 1] == Scan(line, 0);
  }

  /** A scan that starts on a non-letter does not start with a mnemonic. */
  lemma {:induction false} ScanHeadNotMnemonic(s: string, i: nat)
    requires i <= |s| && NoNewline(s)
    requires i == |s| || !IsLetter(s[i])
    ensures Scan(s, i) == [] || Scan(s, i)[0].kind != Mnemonic
  {
    if i < |s| {
      ScanStep(s, i);
    }
  }

  /** A mnemonic token takes the whole run of letters. */
  lemma {:induction false} MnemonicEndsRun(s: string, i: nat)
    requires i < |s| && s[i] != '\n' && TokenAt(s, i).kind == Mnemonic
    ensures var e := i + |TokenAt(s, i).value|; e == |s| || !IsLetter(s[e])
  {
    AlternationByFirstChar(s, i);
  }

  /** Letters are consumed greedily, so two mnemonics are never adjacent. */
  lemma {:induction false} ScanNoAdjacentMnemonics(s: string, i: nat)
    requires i <= |s| && NoNewline(s)
    ensures forall q | 0 <= q < |Scan(s, i)| - 1 ::
      !(Scan(s, i)[q].kind == Mnemonic && Scan(s, i)[q + 1].kind == Mnemonic)
    decreases |s| - i
  {
    if i < |s| {
      var next := ScanCons(s, i);
      var ts := Scan(s, i);
      var rest := Scan(s, next);
      ScanNoAdjacentMnemonics(s, next);
      if TokenAt(s, i).kind == Mnemonic {
        MnemonicEndsRun(s, i);
        ScanHeadNotMnemonic(s, next);
      }
      forall q | 0 <= q < |ts| - 1
        ensures !(ts[q].kind == Mnemonic && ts[q + 1].kind == Mnemonic)
      {
        if q > 0 {
          assert ts[q] == rest[q - 1] && ts[q + 1] == rest[q];
        }
      }
    }
  }

  /** `tokenize` of a cleaned line never puts two mnemonics side by side. */
  lemma {:induction false} CleanTokensNoAdjacentMnemonics(line: string)
    ensures forall q | 0 <= q < |Tokens(CleanLine(line))| - 1 ::
      !(Tokens(CleanLine(line))[q].kind == Mnemonic && Tokens(CleanLine(line))[q + 1].kind == Mnemonic)
  {
    var s := CleanLine(line);
    ScanNoAdjacentMnemonics(s, 0);
    var ts := Tokens(s);
    forall q | 0 <= q < |ts| - 1
      ensures !(ts[q].kind == Mnemonic && ts[q + 1].kind == Mnemonic)
    {
      if q + 1 == |ts| - 1 {
        assert ts[q + 1].kind == Eof;
      } else {
        assert ts[q] == Scan(s, 0)[q] && ts[q + 1] == Scan(s, 0)[q + 1];
      }
    }
  }

  /**
   * On a line without lower-case letters the `0x` and `0b` forms never fire:
   * a digit starts a decimal 16-bit literal of at most five digits.
   */
  lemma {:induction false} DigitLiteralOnUppercaseLine(s: string, i: nat)
    requires i < |s| && IsDigit(s[i]) && NoLowercase(s)
    ensures var n := NumberMatch(s, i, 4, 16, 5);
            n == Min(Span(s, i, Digits), 5) && 1 <= n <= 5 && AllDigits(s[i..i + n])
  {
    assert !At(s, i + 1, 'x') && !At(s, i + 1, 'b') by {
      assert i + 1 < |s| ==> !IsLowerLetter(s[i + 1]);
    }
    SpanInClass(s, i, Digits);
    var n := NumberMatch(s, i, 4, 16, 5);
    var v := s[i..i + n];
    assert forall q | 0 <= q < n :: v[q] == s[i + q];
  }

  /** A 16-bit literal as an upper-cased line can spell it. */
  predicate UppercaseLiteral16(t: Token) {
    t.kind == Literal16 ==> DollarHex(t.value, 4) || (1 <= |t.value| <= 5 && AllDigits(t.value))
  }

  lemma {:induction false} TokenAtUppercaseLiteral(s: string, i: nat)
    requires i < |s| && s[i] != '\n' && NoLowercase(s)
    ensures UppercaseLiteral16(Token(Alternation(s, i).value.0, s[i..i + Alternation(s, i).value.1]))
  {
    TokenAtWellFormed(s, i);
    if IsDigit(s[i]) {
      AlternationByFirstChar(s, i);
      DigitLiteralOnUppercaseLine(s, i);
    }
  }

  /** Hence every 16-bit literal on such a line is `$` and four hex digits, or one to five decimal digits. */
  lemma {:induction false} ScanUppercaseLiterals(s: string, i: nat)
    requires i <= |s| && NoLowercase(s)
    ensures forall t | t in Scan(s, i) :: UppercaseLiteral16(t)
  {
    forall j | i <= j < |s| && s[j] != '\n' ensures UppercaseLiteral16(TokenAt(s, j)) {
      TokenAtUppercaseLiteral(s, j);
    }
    ScanAll(s, i, UppercaseLiteral16);
  }
}
