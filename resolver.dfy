/**
 * The addressing-mode resolver: the per-mode tables `literal_position`,
 * `size_in_bytes` and `arg_types`, `compile_token_types`, and
 * `evaluate_line`, which picks the first grammar (in declaration order) that
 * the token kinds of a line equal exactly and pulls the mnemonic, the
 * operand literal and the operand width out of the tokens.
 */
module Resolver {
  import opened Wrappers
  import opened Include
  import opened Lexer

  /** `literal_position`: the index of the operand literal in the grammar, 0 for none. */
  function LiteralPosition(m: AddrMode): nat {
    match m
    case Implied => 0
    case Accumulator => 0
    case Immediate => 2
    case Absolute => 1
    case XIndexedAbsolute => 1
    case YIndexedAbsolute => 1
    case AbsoluteIndirect => 2
    case ZeroPage => 1
    case XIndexedZeroPage => 1
    case YIndexedZeroPage => 1
    case XIndexedZeroPageIndirect => 2
    case ZeroPageIndirectYIndexed => 2
    case AssemblerOption => 0
    case Label => 0
    case JumpLabel => 0
  }

  /** `size_in_bytes`: how far an instruction of the mode advances the program counter. */
  function SizeInBytes(m: AddrMode): nat {
    match m
    case Implied => 1
    case Accumulator => 1
    case Immediate => 2
    case Absolute => 3
    case XIndexedAbsolute => 3
    case YIndexedAbsolute => 3
    case AbsoluteIndirect => 3
    case ZeroPage => 2
    case XIndexedZeroPage => 2
    case YIndexedZeroPage => 2
    case XIndexedZeroPageIndirect => 2
    case ZeroPageIndirectYIndexed => 2
    case AssemblerOption => 0
    case Label => 0
    case JumpLabel => 3
  }

  /** `arg_types`: the operand width in bits (0, 8 or 16). */
  function ArgType(m: AddrMode): nat {
    match m
    case Implied => 0
    case Accumulator => 0
    case Immediate => 8
    case Absolute => 16
    case XIndexedAbsolute => 16
    case YIndexedAbsolute => 16
    case AbsoluteIndirect => 16
    case ZeroPage => 8
    case XIndexedZeroPage => 8
    case YIndexedZeroPage => 8
    case XIndexedZeroPageIndirect => 8
    case ZeroPageIndirectYIndexed => 8
    case AssemblerOption => 0
    case Label => 0
    case JumpLabel => 16
  }

  /** The pseudo-modes: option directives, label declarations and jumps to a label. */
  predicate IsPseudoMode(m: AddrMode) {
    m == AssemblerOption || m == Label || m == JumpLabel
  }

  /**
   * Every mode with an operand slot declares the width of the literal kind
   * its grammar holds in that slot; a mode without one declares width 0
   * unless it is a jump to a label.
   */
  lemma {:induction false} WidthMatchesLiteralSlot(m: AddrMode)
    ensures LiteralPosition(m) != 0 ==>
      LiteralPosition(m) < |Grammar(m)|
      && (ArgType(m) == 8 <==> Grammar(m)[LiteralPosition(m)] == Literal8)
      && (ArgType(m) == 16 <==> Grammar(m)[LiteralPosition(m)] == Literal16)
      && (Grammar(m)[LiteralPosition(m)] == Literal8 || Grammar(m)[LiteralPosition(m)] == Literal16)
    ensures LiteralPosition(m) == 0 ==> (ArgType(m) == 0 <==> m != JumpLabel)
  {
  }

  /**
   * For every instruction mode the declared size is the opcode byte plus the
   * operand bytes its width calls for.
   */
  lemma {:induction false} SizeIsOpcodePlusOperand(m: AddrMode)
    requires !IsPseudoMode(m)
    ensures SizeInBytes(m) == 1 + ArgType(m) / 8
  {
  }

  /** The kinds of a token list, in order. */
  function Kinds(ts: seq<Token>): seq<TokenType> {
    if ts == [] then [] else [ts[0].kind] + Kinds(ts[1..])
  }

  lemma {:induction false} KindsLength(ts: seq<Token>)
    ensures |Kinds(ts)| == |ts|
  {
    if ts != [] {
      KindsLength(ts[1..]);
    }
  }

  lemma {:induction false} KindsAt(ts: seq<Token>)
    ensures |Kinds(ts)| == |ts|
    ensures forall k | 0 <= k < |ts| :: Kinds(ts)[k] == ts[k].kind
  {
    if ts != [] {
      KindsAt(ts[1..]);
    }
  }

  /** `compile_token_types`: the loop that collects the kind of every token. */
  method CompileTokenTypes(tokens: seq<Token>) returns (types: seq<TokenType>)
    ensures types == Kinds(tokens)
    ensures |types| == |tokens| && forall k | 0 <= k < |tokens| :: types[k] == tokens[k].kind
  {
    types := [];
    var i := 0;
    while i < |tokens|
      invariant 0 <= i <= |tokens|
      invariant |types| == i && forall k | 0 <= k < i :: types[k] == tokens[k].kind
    {
      types := types + [tokens[i].kind];
      i := i + 1;
    }
    KindsAt(tokens);
  }

  /**
   * The loop over `addressing_modes.items()` from place `from` on: the
   * first mode whose grammar equals `kinds`.
   */
  function FirstModeFrom(kinds: seq<TokenType>, from: nat): Option<AddrMode>
    requires from <= |AllModes|
    decreases |AllModes| - from
  {
    if from == |AllModes| then None
    else if Grammar(AllModes[from]) == kinds then Some(AllModes[from])
    else FirstModeFrom(kinds, from + 1)
  }

  /** The search finds a mode exactly when one fits, and the one it finds comes first. */
  lemma {:induction false} FirstModeFromIsFirst(kinds: seq<TokenType>, from: nat)
    requires from <= |AllModes|
    ensures FirstModeFrom(kinds, from).None? <==>
      forall q | from <= q < |AllModes| :: Grammar(AllModes[q]) != kinds
    ensures FirstModeFrom(kinds, from).Some? ==>
      var m := FirstModeFrom(kinds, from).value;
      from < ModeValue(m) && Grammar(m) == kinds
      && forall q | from <= q < ModeValue(m) - 1 :: Grammar(AllModes[q]) != kinds
    decreases |AllModes| - from
  {
    if from < |AllModes| {
      FirstModeFromIsFirst(kinds, from + 1);
      ModeValuesAreOneToFifteen();
    }
  }

  /** The first mode of all, in declaration order, whose grammar equals `kinds`. */
  function FirstMode(kinds: seq<TokenType>): (r: Option<AddrMode>)
    ensures r.None? <==> forall m :: Grammar(m) != kinds
    ensures r.Some? ==> Grammar(r.value) == kinds
    ensures r.Some? ==> forall m | ModeValue(m) < ModeValue(r.value) :: Grammar(m) != kinds
  {
    FirstModeIsFirst(kinds);
    FirstModeFrom(kinds, 0)
  }

  /** The search from the first place, restated over modes rather than places. */
  lemma {:induction false} FirstModeIsFirst(kinds: seq<TokenType>)
    ensures FirstModeFrom(kinds, 0).None? <==> forall m :: Grammar(m) != kinds
    ensures FirstModeFrom(kinds, 0).Some? ==>
      Grammar(FirstModeFrom(kinds, 0).value) == kinds
      && forall m | ModeValue(m) < ModeValue(FirstModeFrom(kinds, 0).value) :: Grammar(m) != kinds
  {
    FirstModeFromIsFirst(kinds, 0);
    var r := FirstModeFrom(kinds, 0);
    if r.None? {
      forall m ensures Grammar(m) != kinds {
        var q := ModeValue(m) - 1;
        assert Grammar(AllModes[q]) != kinds;
      }
    } else {
      forall m | ModeValue(m) < ModeValue(r.value) ensures Grammar(m) != kinds {
        var q := ModeValue(m) - 1;
        assert Grammar(AllModes[q]) != kinds;
      }
    }
  }

  /** The tuple `evaluate_line` returns: mnemonic, mode, operand literal and operand width. */
  datatype Resolved = Resolved(mnemonic: string, mode: AddrMode, arg: string, argType: nat)

  /** The extraction rules of `evaluate_line` once a mode `m` has matched. */
  function Extract(tokens: seq<Token>, m: AddrMode): (r: Resolved)
    requires |tokens| == |Grammar(m)|
    ensures r.mode == m && r.argType == ArgType(m)
  {
    if LiteralPosition(m) != 0 then Resolved(tokens[0].value, m, tokens[LiteralPosition(m)].value, ArgType(m))
    else if m == AssemblerOption then Resolved("", m, tokens[|tokens| - 2].value, ArgType(m))
    else if m == Label then Resolved("", m, tokens[0].value, ArgType(m))
    else if m == JumpLabel then Resolved(tokens[0].value, m, tokens[2].value, ArgType(m))
    else Resolved(tokens[0].value, m, "", ArgType(m))
  }

  /**
   * `evaluate_line`: the first mode in declaration order whose grammar the
   * token kinds equal exactly (same length, same kinds), or the fatal
   * unknown-addressing-mode error carrying the 1-based line number.
   */
  function EvaluateLine(tokens: seq<Token>, linenum: nat): (r: Result<Resolved, AsmError>)
    ensures r.Err? <==> forall m :: Grammar(m) != Kinds(tokens)
    ensures r.Err? ==> r.error == UnknownAddressingMode(linenum)
    ensures r.Ok? ==> Grammar(r.value.mode) == Kinds(tokens)
    ensures r.Ok? ==> forall m | ModeValue(m) < ModeValue(r.value.mode) :: Grammar(m) != Kinds(tokens)
  {
    match FirstMode(Kinds(tokens))
    case None => Err(UnknownAddressingMode(linenum))
    case Some(m) => KindsLength(tokens); Ok(Extract(tokens, m))
  }

  /** The Y-indexed grammars repeat the X-indexed ones, which come first: no line resolves to them. */
  lemma {:induction false} YIndexedUnreachable(tokens: seq<Token>, linenum: nat)
    ensures EvaluateLine(tokens, linenum).Ok? ==>
      EvaluateLine(tokens, linenum).value.mode != YIndexedAbsolute
      && EvaluateLine(tokens, linenum).value.mode != YIndexedZeroPage
  {
    assert ModeValue(XIndexedAbsolute) < ModeValue(YIndexedAbsolute);
    assert ModeValue(XIndexedZeroPage) < ModeValue(YIndexedZeroPage);
    assert Grammar(XIndexedAbsolute) == Grammar(YIndexedAbsolute);
    assert Grammar(XIndexedZeroPage) == Grammar(YIndexedZeroPage);
  }

  /**
   * What `evaluate_line` pulls out of the tokens for each kind of mode: the
   * literal slot and its width, nothing for implied and accumulator lines,
   * the option name, the label name, or the jump target name.
   */
  predicate ExtractedAsDeclared(tokens: seq<Token>, r: Resolved) {
    var m, p := r.mode, LiteralPosition(r.mode);
    |tokens| == |Grammar(m)|
    && (p != 0 ==>
          p < |tokens| && r.mnemonic == tokens[0].value && r.arg == tokens[p].value
          && (r.argType == 8 <==> tokens[p].kind == Literal8)
          && (r.argType == 16 <==> tokens[p].kind == Literal16))
    && ((m == Implied || m == Accumulator) ==>
          r.mnemonic == tokens[0].value && r.arg == "" && r.argType == 0)
    && (m == AssemblerOption ==>
          r.mnemonic == "" && r.arg == tokens[|tokens| - 2].value
          && tokens[|tokens| - 2].kind == OptionName && r.argType == 0)
    && (m == Label ==>
          r.mnemonic == "" && r.arg == tokens[0].value && tokens[0].kind == Mnemonic
          && r.argType == 0)
    && (m == JumpLabel ==>
          r.mnemonic == tokens[0].value && r.arg == tokens[2].value
          && tokens[2].kind == Mnemonic && r.argType == 16)
  }

  /** Every successful resolution takes its fields from the slots its mode declares. */
  lemma {:induction false} EvaluateLineExtracts(tokens: seq<Token>, linenum: nat)
    ensures EvaluateLine(tokens, linenum).Ok? ==> ExtractedAsDeclared(tokens, EvaluateLine(tokens, linenum).value)
  {
    match FirstMode(Kinds(tokens))
    case None =>
    case Some(m) =>
      KindsAt(tokens);
      ExtractFollowsGrammar(tokens, m);
  }

  /** Extraction under a matching grammar takes each field from its declared slot. */
  lemma {:induction false} ExtractFollowsGrammar(tokens: seq<Token>, m: AddrMode)
    requires |tokens| == |Grammar(m)| && forall k | 0 <= k < |tokens| :: tokens[k].kind == Grammar(m)[k]
    ensures ExtractedAsDeclared(tokens, Extract(tokens, m))
  {
    WidthMatchesLiteralSlot(m);
  }

  /**
   * The tokens the assembler fakes for a resolved jump (a mnemonic, a
   * 16-bit literal and the end marker) always resolve as absolute mode.
   */
  lemma {:induction false} FakedJumpIsAbsolute(mnemonic: string, literal: string, linenum: nat)
    ensures EvaluateLine([Token(Mnemonic, mnemonic), Token(Literal16, literal), Token(Eof, "EOF")], linenum)
            == Ok(Resolved(mnemonic, Absolute, literal, 16))
  {
    var ts := [Token(Mnemonic, mnemonic), Token(Literal16, literal), Token(Eof, "EOF")];
    var kinds := [Mnemonic, Literal16, Eof];
    assert Kinds(ts) == kinds by {
      KindsAt(ts);
    }
    assert Grammar(Absolute) == kinds;
    var m := EvaluateLine(ts, linenum).value.mode;
    assert Grammar(m) == kinds;
    assert ModeValue(m) <= ModeValue(Absolute);
    assert Grammar(Implied) != kinds && Grammar(Accumulator) != kinds && Grammar(Immediate) != kinds;
  }

  /**
   * A tokenized line never holds two adjacent mnemonics, so the accumulator
   * grammar never matches what the lexer produces.
   */
  lemma {:induction false} AccumulatorUnreachable(line: string, linenum: nat)
    ensures EvaluateLine(Tokens(CleanLine(line)), linenum).Ok? ==>
      EvaluateLine(Tokens(CleanLine(line)), linenum).value.mode != Accumulator
  {
    var ts := Tokens(CleanLine(line));
    CleanTokensNoAdjacentMnemonics(line);
    KindsAt(ts);
    assert |ts| >= 2 ==> !(ts[0].kind == Mnemonic && ts[1].kind == Mnemonic);
  }
}
