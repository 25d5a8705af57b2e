/**
 * One source line followed through the whole per-line pipeline, with a
 * one-mnemonic instruction table: `lda #$01` is cleaned, scanned, resolved to
 * IMMEDIATE mode and encoded as the bytes A9 01.
 */
module Scenarios {
  import opened Wrappers
  import opened Chars
  import opened Include
  import opened Lexer
  import opened Resolver
  import opened Assembler

  /** A table holding only LDA, in immediate (A9) and zero-page (A5) modes, both documented. */
  const Lda: InstructionTable := map["LDA" := [TableEntry(Immediate, 0xA9, true), TableEntry(ZeroPage, 0xA5, true)]]

  /** `clean_line` works one character at a time, so it distributes over concatenation. */
  lemma {:induction false} CleanAppend(a: string, b: string)
    ensures CleanLine(a + b) == CleanLine(a) + CleanLine(b)
  {
    if a != [] {
      assert (a + b)[0] == a[0] && (a + b)[1..] == a[1..] + b;
      CleanAppend(a[1..], b);
      var head := if Kept(a[0]) then [ToUpper(a[0])] else [];
      assert head + (CleanLine(a[1..]) + CleanLine(b)) == (head + CleanLine(a[1..])) + CleanLine(b);
    } else {
      assert a + b == b;
    }
  }

  /** The space goes and the letters are upper-cased. */
  lemma {:induction false} LdaClean()
    ensures CleanLine("lda #$01") == "LDA#$01"
  {
    assert "lda #$01" == "lda" + " #$01";
    CleanAppend("lda", " #$01");
    assert CleanLine("lda") == "LDA";
    assert CleanLine(" #$01") == "#$01";
  }

  /** Mnemonic, hash, an 8-bit literal (`$` and two hex digits), then the end marker. */
  lemma {:induction false} LdaTokens()
    ensures Tokens("LDA#$01") == [Token(Mnemonic, "LDA"), Token(Hash, "#"), Token(Literal8, "$01"), Token(Eof, "EOF")]
  {
    LdaScan();
  }

  /** The scan from each token start on. */
  lemma {:induction false} LdaScan()
    ensures Scan("LDA#$01", 0) == [Token(Mnemonic, "LDA"), Token(Hash, "#"), Token(Literal8, "$01")]
  {
    var s := "LDA#$01";
    LdaScanHash();
    LdaMnemonic();
    assert s[0..3] == "LDA";
  }

  /** From place 3 on: the hash, then the literal. */
  lemma {:induction false} LdaScanHash()
    ensures Scan("LDA#$01", 3) == [Token(Hash, "#"), Token(Literal8, "$01")]
  {
    var s := "LDA#$01";
    LdaLiteral();
    assert Scan(s, 4) == [Token(Literal8, "$01")] by {
      assert Scan(s, 7) == [];
      assert s[4..7] == "$01";
    }
    assert Alternation(s, 3) == Some((Hash, 1));
    assert s[3..4] == "#";
  }

  /** At place 0 no earlier pattern matches and the letter run `LDA` is the mnemonic. */
  lemma {:induction false} LdaMnemonic()
    ensures Alternation("LDA#$01", 0) == Some((Mnemonic, 3))
  {
    var s := "LDA#$01";
    assert OptMatch(s, 0) == 0 by { assert !At(s, 1, 'P'); }
    assert Single(s, 0, '#') == 0;
    assert Span(s, 0, Digits) == 0;
    assert NumberMatch(s, 0, 4, 16, 5) == 0;
    assert NumberMatch(s, 0, 2, 8, 3) == 0;
    assert Span(s, 0, Letters) == 3;
  }

  /** At place 4 the 16-bit pattern fails (two hex digits are too few) and the 8-bit one takes `$01`. */
  lemma {:induction false} LdaLiteral()
    ensures Alternation("LDA#$01", 4) == Some((Literal8, 3))
  {
    var s := "LDA#$01";
    assert Span(s, 5, HexDigits) == 2;
    assert Span(s, 4, Digits) == 0;
    assert NumberMatch(s, 4, 4, 16, 5) == 0;
    assert NumberMatch(s, 4, 2, 8, 3) == 3;
  }

  /** Those token kinds are first matched by the IMMEDIATE grammar, with the literal at slot 2. */
  lemma {:induction false} LdaMode(ts: seq<Token>)
    requires ts == [Token(Mnemonic, "LDA"), Token(Hash, "#"), Token(Literal8, "$01"), Token(Eof, "EOF")]
    ensures EvaluateLine(ts, 1) == Ok(Resolved("LDA", Immediate, "$01", 8))
  {
    KindsAt(ts);
    assert Kinds(ts) == [Mnemonic, Hash, Literal8, Eof];
    assert Kinds(ts) == Grammar(Immediate);
    assert FirstMode(Kinds(ts)) == Some(Immediate) by {
      assert ModeValue(Immediate) == 3;
      forall m | ModeValue(m) < 3 ensures Grammar(m) != Kinds(ts) {
        assert m == Implied || m == Accumulator;
      }
    }
  }

  /** What `evaluate_line` returns for the line. */
  lemma {:induction false} LdaRepresent()
    ensures Represent("lda #$01", 1) == Ok(Resolved("LDA", Immediate, "$01", 8))
  {
    LdaClean();
    LdaTokens();
    LdaMode(Tokens("LDA#$01"));
  }

  /** `$01` is hexadecimal 1. */
  lemma {:induction false} Dollar01()
    ensures ValueLiteral.LiteralValue("$01") == Ok(1)
  {
    assert ValueLiteral.DigitsValue("01", 16) == 1 by {
      assert "01"[..1] == "0";
      assert "0"[..0] == "";
    }
    assert ValueLiteral.FirstTwo("$01")[0] == '$';
    assert ValueLiteral.StripValueLiteral("$01") == "01";
  }

  /**
   * Opcode A9 and the operand byte 01; the program counter moves by 2; with
   * the initial options the inverted undocumented check warns for this
   * documented row.
   */
  lemma {:induction false} EncodeLda()
    ensures Encode(Lda, Start, Resolved("LDA", Immediate, "$01", 8), 1)
         == Running(Start.(position := 2, out := [0xA9, 0x01], warnings := [Undocumented(1, "LDA", Immediate)]))
  {
    var r := Resolved("LDA", Immediate, "$01", 8);
    Dollar01();
    assert ModeIndex(Lda["LDA"], Immediate) == Some(0);
    var st1 := WriteOpcode(Start, Lda["LDA"][0], r, 1);
    assert WarnsUndocumented(Lda["LDA"][0], Start.options);
    assert st1 == Start.(out := [0xA9], warnings := [Undocumented(1, "LDA", Immediate)]);
    assert !IsBranch(r);
  }

  /** The whole loop body for the line, as the first line of a run. */
  lemma {:induction false} LoadImmediate()
    ensures Step(Lda, Start, "lda #$01", 1)
         == Running(Start.(position := 2, out := [0xA9, 0x01], warnings := [Undocumented(1, "LDA", Immediate)]))
  {
    LdaRepresent();
    InstructionStep(Lda, Start, "lda #$01", 1, Resolved("LDA", Immediate, "$01", 8));
    EncodeLda();
  }
}
