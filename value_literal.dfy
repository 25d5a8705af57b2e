/**
 * Numeric literals: finding the base from a prefix or suffix
 * (`evaluate_value_literal`), removing that marker (`strip_value_literal`),
 * converting the remaining digits (`convert_value_literal`, which is
 * `int(text, base=base)`), and the `format(n, '04X')` text the assembler
 * builds for a resolved label.
 */
module ValueLiteral {
  import opened Wrappers
  import opened Chars

  /** `value[:2].upper()`: the first two characters (fewer on a shorter text), upper-cased. */
  function FirstTwo(value: string): string {
    UpperString(if |value| < 2 then value else value[..2])
  }

  /** `value[-1].upper()` */
  function LastChar(value: string): char
    requires |value| > 0
  {
    ToUpper(value[|value| - 1])
  }

  /** The text carries a base marker: a `0B`/`0X` prefix, a leading `$`, or a trailing `H` or `D`. */
  predicate HasMarker(value: string)
    requires |value| > 0
  {
    FirstTwo(value) == "0B" || FirstTwo(value) == "0X" || value[0] == '$'
    || LastChar(value) == 'H' || LastChar(value) == 'D'
  }

  /**
   * `strip_value_literal`: removes one marker, tried in the order prefix
   * `0B`/`0X`, leading `$`, trailing `H`/`D`; a text without a marker comes
   * back unchanged.
   */
  function StripValueLiteral(literal: string): (r: string)
    requires |literal| > 0
    ensures r == literal <==> !HasMarker(literal)
    ensures r == literal || (|literal| >= 2 && r == literal[2..]) || r == literal[1..] || r == literal[..|literal| - 1]
  {
    var firstTwo := FirstTwo(literal);
    var lastChar := LastChar(literal);
    if firstTwo == "0B" || firstTwo == "0X" then literal[2..]
    else if literal[0] == '$' then literal[1..]
    else if lastChar == 'H' || lastChar == 'D' then literal[..|literal| - 1]
    else literal
  }

  /**
   * `evaluate_value_literal`: base 2 for a `0B` prefix; base 16 for `0X`, a
   * leading `$` or a trailing `H`; base 10 for a trailing `D`; None (Python's
   * `None`) for anything else, bare decimal digits included.
   */
  function EvaluateValueLiteral(literal: string): (r: Option<nat>)
    requires |literal| > 0
    ensures r.None? <==> !HasMarker(literal)
    ensures r.Some? ==> r.value == 2 || r.value == 10 || r.value == 16
  {
    var firstTwo := FirstTwo(literal);
    var lastChar := LastChar(literal);
    if firstTwo == "0B" then Some(2)
    else if firstTwo == "0X" || literal[0] == '$' || lastChar == 'H' then Some(16)
    else if lastChar == 'D' then Some(10)
    else None
  }

  /** Finding no base and stripping nothing go together. */
  lemma {:induction false} NoBaseIffNothingStripped(literal: string)
    requires |literal| > 0
    ensures EvaluateValueLiteral(literal).None? <==> StripValueLiteral(literal) == literal
  {
  }

  /** The value of a digit or letter as `int()` reads it (letters count from 10, in either case). */
  function DigitValue(c: char): nat {
    if IsDigit(c) then c as nat - '0' as nat
    else if IsUpperLetter(c) then c as nat - 'A' as nat + 10
    else if IsLowerLetter(c) then c as nat - 'a' as nat + 10
    else 36
  }

  /** Every character of `s` is a digit of base `base`. */
  predicate AllDigitsOf(s: string, base: nat) {
    forall k | 0 <= k < |s| :: DigitValue(s[k]) < base
  }

  function Pow(b: nat, e: nat): nat {
    if e == 0 then 1 else b * Pow(b, e - 1)
  }

  /** The number the digits of `s` spell in base `base`, most significant first. */
  function DigitsValue(s: string, base: nat): nat {
    if s == [] then 0 else DigitsValue(s[..|s| - 1], base) * base + DigitValue(s[|s| - 1])
  }

  /** `n` digits of base `base` spell a number below `base^n`. */
  lemma {:induction false} DigitsValueBound(s: string, base: nat)
    requires AllDigitsOf(s, base)
    ensures DigitsValue(s, base) < Pow(base, |s|)
  {
    if s != [] {
      var init := s[..|s| - 1];
      assert AllDigitsOf(init, base) by {
        forall k | 0 <= k < |init| ensures DigitValue(init[k]) < base {
          assert init[k] == s[k];
        }
      }
      DigitsValueBound(init, base);
      assert DigitsValue(s, base) == DigitsValue(init, base) * base + DigitValue(s[|s| - 1]);
      assert Pow(base, |s|) == base * Pow(base, |init|);
      DigitStep(DigitsValue(init, base), Pow(base, |init|), base, DigitValue(s[|s| - 1]));
    }
  }

  /** Appending a digit below `b` to a number below `p` stays below `b * p`. */
  lemma {:induction false} DigitStep(a: nat, p: nat, b: nat, d: nat)
    requires a < p && d < b
    ensures a * b + d < b * p
  {
    MulMonotone(a, p - 1, b);
    assert (p - 1) * b == p * b - b;
    assert p * b == b * p;
  }

  lemma {:induction false} MulMonotone(a: nat, c: nat, b: nat)
    requires a <= c
    ensures a * b <= c * b
  {
  }

  /** Why `int(text, base)` fails. */
  datatype ConvertError =
    | NoBase        // TypeError: the base is None
    | InvalidDigits // ValueError: not a non-empty run of digits of the base

  /**
   * `convert_value_literal`: `int(text, base=base)` on a plain run of digits
   * of the base (letters in either case for base 16).
   */
  function ConvertValueLiteral(literal: string, base: Option<nat>): (r: Result<nat, ConvertError>)
    ensures base.None? ==> r == Err(NoBase)
    ensures base.Some? && 2 <= base.value ==>
      (r.Ok? <==> |literal| > 0 && AllDigitsOf(literal, base.value))
    ensures r.Ok? ==> base.Some? && r.value < Pow(base.value, |literal|)
  {
    match base
    case None => Err(NoBase)
    case Some(b) =>
      if |literal| > 0 && AllDigitsOf(literal, b) then
        DigitsValueBound(literal, b);
        Ok(DigitsValue(literal, b))
      else Err(InvalidDigits)
  }

  /** What the assembler does with an operand text: find the base, strip the marker, convert. */
  function LiteralValue(literal: string): Result<nat, ConvertError>
    requires |literal| > 0
  {
    ConvertValueLiteral(StripValueLiteral(literal), EvaluateValueLiteral(literal))
  }

  /** A literal without a marker, such as bare decimal digits, has no base and fails to convert. */
  lemma {:induction false} BareDigitsFail(literal: string)
    requires |literal| > 0 && forall k | 0 <= k < |literal| :: IsDigit(literal[k])
    ensures LiteralValue(literal) == Err(NoBase)
  {
    assert !IsLowerLetter(literal[|literal| - 1]);
    assert LastChar(literal) == literal[|literal| - 1];
    if |literal| >= 2 {
      assert FirstTwo(literal)[1] == ToUpper(literal[1]);
    }
  }

  /** The value of a literal, from its base, its stripped digits and their value. */
  lemma {:induction false} LiteralOf(literal: string, digits: string, base: nat)
    requires |literal| > 0 && 2 <= base
    requires EvaluateValueLiteral(literal) == Some(base) && StripValueLiteral(literal) == digits
    requires |digits| > 0 && AllDigitsOf(digits, base)
    ensures LiteralValue(literal) == Ok(DigitsValue(digits, base))
  {
  }

  /** The text starts with a base marker: a `0B`/`0X` prefix or a `$`. */
  predicate HasPrefixMarker(literal: string)
    requires |literal| > 0
  {
    FirstTwo(literal) == "0B" || FirstTwo(literal) == "0X" || literal[0] == '$'
  }

  /** A `0B` or `0b` prefix: base 2, and the prefix is what is stripped, whatever follows. */
  lemma {:induction false} BinaryPrefix(p: string, d: string)
    requires p == "0B" || p == "0b"
    ensures StripValueLiteral(p + d) == d && EvaluateValueLiteral(p + d) == Some(2)
  {
    var s := p + d;
    assert s[..2] == p && s[2..] == d;
    assert UpperString(p) == [ToUpper(p[0])] + UpperString(p[1..]);
    assert UpperString(p[1..]) == [ToUpper(p[1])] + UpperString(p[2..]);
    assert FirstTwo(s) == "0B";
  }

  /** A `0X`, `0x` or `$` prefix: base 16, and the prefix is what is stripped, whatever follows. */
  lemma {:induction false} HexPrefix(p: string, d: string)
    requires p == "0X" || p == "0x" || p == "$"
    ensures StripValueLiteral(p + d) == d && EvaluateValueLiteral(p + d) == Some(16)
  {
    var s := p + d;
    if p == "$" {
      assert s[0] == '$' && s[1..] == d;
      assert FirstTwo(s)[0] == '$';
    } else {
      assert s[..2] == p && s[2..] == d;
      assert UpperString(p) == [ToUpper(p[0])] + UpperString(p[1..]);
      assert UpperString(p[1..]) == [ToUpper(p[1])] + UpperString(p[2..]);
      assert FirstTwo(s) == "0X";
    }
  }

  /**
   * A trailing `H`/`h` gives base 16 and a trailing `D`/`d` base 10, with the
   * suffix stripped, whenever no prefix marker comes first.
   */
  lemma {:induction false} SuffixMarker(d: string, h: char, base: nat)
    requires ((h == 'H' || h == 'h') && base == 16) || ((h == 'D' || h == 'd') && base == 10)
    requires !HasPrefixMarker(d + [h])
    ensures StripValueLiteral(d + [h]) == d && EvaluateValueLiteral(d + [h]) == Some(base)
  {
    var s := d + [h];
    assert s[|s| - 1] == h && s[..|s| - 1] == d;
    assert LastChar(s) == ToUpper(h);
  }

  /** A prefixed run of digits of the base converts to the value the digits spell. */
  lemma {:induction false} PrefixValue(p: string, d: string, base: nat)
    requires ((p == "0B" || p == "0b") && base == 2) || ((p == "0X" || p == "0x" || p == "$") && base == 16)
    requires |d| > 0 && AllDigitsOf(d, base)
    ensures LiteralValue(p + d) == Ok(DigitsValue(d, base))
  {
    if base == 2 {
      BinaryPrefix(p, d);
    } else {
      HexPrefix(p, d);
    }
    LiteralOf(p + d, d, base);
  }

  /** A suffixed run of digits of the base, with no prefix marker, converts to the value the digits spell. */
  lemma {:induction false} SuffixValue(d: string, h: char, base: nat)
    requires ((h == 'H' || h == 'h') && base == 16) || ((h == 'D' || h == 'd') && base == 10)
    requires !HasPrefixMarker(d + [h])
    requires |d| > 0 && AllDigitsOf(d, base)
    ensures LiteralValue(d + [h]) == Ok(DigitsValue(d, base))
  {
    SuffixMarker(d, h, base);
    LiteralOf(d + [h], d, base);
  }

  /** `1D` read in base 16 is 29. */
  lemma {:induction false} OneDHex()
    ensures AllDigitsOf("1D", 16) && DigitsValue("1D", 16) == 29
  {
    var d := "1D";
    assert DigitValue(d[0]) == 1 && DigitValue(d[1]) == 13;
    assert d[..1] == "1" && "1"[..0] == "";
    assert DigitsValue("1", 16) == 0 * 16 + 1;
  }

  /**
   * The markers are tried in order, so a prefix wins over a suffix: `0BEH`
   * is read as the binary digits `EH`, which fail to convert.
   */
  lemma {:induction false} PrefixBeforeSuffix()
    ensures LiteralValue("0BEH") == Err(InvalidDigits)
  {
    BinaryPrefix("0B", "EH");
    assert "0B" + "EH" == "0BEH";
    assert DigitValue("EH"[0]) == 14;
  }

  /** `0X1D` is the hex digits `1D`, not the decimal `0X1`. */
  lemma {:induction false} ZeroXBeforeDecimalSuffix()
    ensures LiteralValue("0X1D") == Ok(29)
  {
    OneDHex();
    assert "0X" + "1D" == "0X1D";
    PrefixValue("0X", "1D", 16);
  }

  /** `$1D` is the hex digits `1D`, not the decimal `$1`. */
  lemma {:induction false} DollarBeforeDecimalSuffix()
    ensures LiteralValue("$1D") == Ok(29)
  {
    OneDHex();
    assert "$" + "1D" == "$1D";
    PrefixValue("$", "1D", 16);
  }

  lemma {:induction false} TenInBase(base: nat)
    requires base >= 2
    ensures AllDigitsOf("10", base) && DigitsValue("10", base) == base
  {
    assert "1"[..0] == "";
    assert DigitsValue("1", base) == 0 * base + 1;
    assert "10"[..1] == "1";
    assert DigitsValue("10", base) == 1 * base + 0;
  }

  lemma {:induction false} DollarTen()
    ensures LiteralValue("$10") == Ok(16)
  {
    var lit := "$10";
    assert FirstTwo(lit)[0] == '$';
    assert lit[1..] == "10";
    TenInBase(16);
    LiteralOf(lit, "10", 16);
  }

  lemma {:induction false} ZeroXTen()
    ensures LiteralValue("0X10") == Ok(16)
  {
    var lit := "0X10";
    assert FirstTwo(lit)[0] == '0' && FirstTwo(lit)[1] == 'X';
    assert FirstTwo(lit) == "0X";
    assert lit[2..] == "10";
    TenInBase(16);
    LiteralOf(lit, "10", 16);
  }

  lemma {:induction false} TenH()
    ensures LiteralValue("10H") == Ok(16)
  {
    var lit := "10H";
    assert FirstTwo(lit)[0] == '1';
    assert LastChar(lit) == 'H';
    assert lit[..2] == "10";
    TenInBase(16);
    LiteralOf(lit, "10", 16);
  }

  /** `$10`, `0X10` and `10H` all mean 16. */
  lemma {:induction false} SixteenInHex()
    ensures LiteralValue("$10") == Ok(16)
    ensures LiteralValue("0X10") == Ok(16)
    ensures LiteralValue("10H") == Ok(16)
  {
    DollarTen();
    ZeroXTen();
    TenH();
  }

  /** `16D` means 16 and `16` alone means nothing. */
  lemma {:induction false} SixteenInDecimal()
    ensures LiteralValue("16D") == Ok(16)
    ensures LiteralValue("16") == Err(NoBase)
  {
    var lit := "16D";
    assert FirstTwo(lit)[0] == '1';
    assert LastChar(lit) == 'D';
    assert lit[..2] == "16";
    assert DigitsValue("16", 10) == 16 by {
      assert "16"[..1] == "1";
      assert "1"[..0] == "";
    }
    LiteralOf(lit, "16", 10);
    BareDigitsFail("16");
  }

  /** The eight binary digits `00010000` spell 16. */
  lemma {:induction false} BinarySixteen()
    ensures AllDigitsOf("00010000", 2) && DigitsValue("00010000", 2) == 16
  {
    assert "00010000"[..7] == "0001000";
    assert "0001000"[..6] == "000100";
    assert "000100"[..5] == "00010";
    assert DigitsValue("00010", 2) == 2 by {
      assert "00010"[..4] == "0001";
      assert "0001"[..3] == "000";
      assert "000"[..2] == "00";
      assert "00"[..1] == "0";
      assert "0"[..0] == "";
    }
  }

  /** `0B00010000` means 16. */
  lemma {:induction false} SixteenInBinary()
    ensures LiteralValue("0B00010000") == Ok(16)
  {
    var lit := "0B00010000";
    assert FirstTwo(lit)[0] == '0' && FirstTwo(lit)[1] == 'B';
    assert FirstTwo(lit) == "0B";
    assert lit[2..] == "00010000";
    BinarySixteen();
    LiteralOf(lit, "00010000", 2);
  }

  // ---------------------------------------------------------------------------
  // format(n, '04X')
  // ---------------------------------------------------------------------------

  /** The upper-case hex digit of `d`. */
  function HexDigitChar(d: nat): (c: char)
    requires d < 16
    ensures DigitValue(c) == d
  {
    if d < 10 then ('0' as nat + d) as char else ('A' as nat + d - 10) as char
  }

  /** The shortest upper-case hex text of `n`. */
  function HexText(n: nat): (s: string)
    ensures |s| > 0 && AllDigitsOf(s, 16)
    decreases n
  {
    if n < 16 then [HexDigitChar(n)] else HexText(n / 16) + [HexDigitChar(n % 16)]
  }

  /** `format(n, '04X')`: upper-case hex, padded with zeros to at least four digits. */
  function Format04X(n: nat): (s: string)
    ensures |s| >= 4 && AllDigitsOf(s, 16)
  {
    var h := HexText(n);
    if |h| >= 4 then h else seq(4 - |h|, _ => '0') + h
  }

  lemma {:induction false} HexTextValue(n: nat)
    ensures DigitsValue(HexText(n), 16) == n
    decreases n
  {
    if n >= 16 {
      HexTextValue(n / 16);
      var s := HexText(n);
      assert s[..|s| - 1] == HexText(n / 16);
    }
  }

  /** Below `16^k` the hex text has at most `k` digits. */
  lemma {:induction false} HexTextLength(n: nat, k: nat)
    requires k >= 1 && n < Pow(16, k)
    ensures |HexText(n)| <= k
    decreases n
  {
    if n >= 16 {
      assert Pow(16, 1) == 16;
      HexTextLength(n / 16, k - 1);
    }
  }

  /** Leading zeros add nothing to the value. */
  lemma {:induction false} LeadingZeros(z: nat, s: string, base: nat)
    ensures DigitsValue(seq(z, _ => '0') + s, base) == DigitsValue(s, base)
    decreases |s|
  {
    var zs := seq(z, _ => '0');
    if s == [] {
      assert zs + s == zs;
      ZerosValue(z, base);
    } else {
      var t := zs + s;
      assert t[..|t| - 1] == zs + s[..|s| - 1];
      LeadingZeros(z, s[..|s| - 1], base);
    }
  }

  lemma {:induction false} ZerosValue(z: nat, base: nat)
    ensures DigitsValue(seq(z, _ => '0'), base) == 0
  {
    if z > 0 {
      var zs := seq(z, _ => '0');
      assert zs[..z - 1] == seq(z - 1, _ => '0');
      ZerosValue(z - 1, base);
    }
  }

  lemma {:induction false} PowSixteenFour()
    ensures Pow(16, 4) == 0x1_0000
  {
    assert Pow(16, 1) == 16;
    assert Pow(16, 2) == 0x100;
    assert Pow(16, 3) == 0x1000;
  }

  /** The padded text still spells `n`, and for a 16-bit `n` it has exactly four digits. */
  lemma {:induction false} Format04XValue(n: nat)
    ensures DigitsValue(Format04X(n), 16) == n
    ensures n < 0x1_0000 ==> |Format04X(n)| == 4
  {
    HexTextValue(n);
    var h := HexText(n);
    if |h| < 4 {
      LeadingZeros(4 - |h|, h, 16);
    }
    if n < 0x1_0000 {
      PowSixteenFour();
      HexTextLength(n, 4);
    }
  }

  /**
   * The text the assembler builds for a resolved label, `$` and the offset
   * in `04X` form, converts back to the offset, for every offset.
   */
  lemma {:induction false} DollarHexRoundTrip(n: nat)
    ensures LiteralValue("$" + Format04X(n)) == Ok(n)
  {
    var f := Format04X(n);
    var lit := "$" + f;
    Format04XValue(n);
    assert lit[0] == '$' && lit[1..] == f;
    assert FirstTwo(lit)[0] == '$';
    assert EvaluateValueLiteral(lit) == Some(16);
    assert StripValueLiteral(lit) == f;
  }
}
