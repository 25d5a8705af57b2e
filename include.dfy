/**
 * The shared definitions of the assembler: the addressing-mode enumeration
 * and its names, the token kinds and the token record, the grammar of each
 * addressing mode, the initial option registry, the fatal errors of an
 * assembly run and the exit behaviour of the `error` reporter.
 */
module Include {

  /** `Addr_Modes`, in declaration order (values 1 to 15). */
  datatype AddrMode =
    | Implied
    | Accumulator
    | Immediate
    | Absolute
    | XIndexedAbsolute
    | YIndexedAbsolute
    | AbsoluteIndirect
    | ZeroPage
    | XIndexedZeroPage
    | YIndexedZeroPage
    | XIndexedZeroPageIndirect
    | ZeroPageIndirectYIndexed
    | AssemblerOption
    | Label
    | JumpLabel

  /** The members of `Addr_Modes` in declaration order, the order in which grammars are tried. */
  const AllModes: seq<AddrMode> := [
    Implied, Accumulator, Immediate, Absolute, XIndexedAbsolute, YIndexedAbsolute,
    AbsoluteIndirect, ZeroPage, XIndexedZeroPage, YIndexedZeroPage,
    XIndexedZeroPageIndirect, ZeroPageIndirectYIndexed, AssemblerOption, Label, JumpLabel
  ]

  /** The `.value` of a mode: its 1-based place in the declaration order. */
  function ModeValue(m: AddrMode): (v: nat)
    ensures 1 <= v <= |AllModes| && AllModes[v - 1] == m
  {
    match m
    case Implied => 1
    case Accumulator => 2
    case Immediate => 3
    case Absolute => 4
    case XIndexedAbsolute => 5
    case YIndexedAbsolute => 6
    case AbsoluteIndirect => 7
    case ZeroPage => 8
    case XIndexedZeroPage => 9
    case YIndexedZeroPage => 10
    case XIndexedZeroPageIndirect => 11
    case ZeroPageIndirectYIndexed => 12
    case AssemblerOption => 13
    case Label => 14
    case JumpLabel => 15
  }

  /** The `.name` of each enumeration member. */
  function EnumName(m: AddrMode): string {
    match m
    case Implied => "IMPLIED"
    case Accumulator => "ACCUMULATOR"
    case Immediate => "IMMEDIATE"
    case Absolute => "ABSOLUTE"
    case XIndexedAbsolute => "X_INDEXED_ABSOLUTE"
    case YIndexedAbsolute => "Y_INDEXED_ABSOLUTE"
    case AbsoluteIndirect => "ABSOLUTE_INDIRECT"
    case ZeroPage => "ZERO_PAGE"
    case XIndexedZeroPage => "X_INDEXED_ZERO_PAGE"
    case YIndexedZeroPage => "Y_INDEXED_ZERO_PAGE"
    case XIndexedZeroPageIndirect => "X_INDEXED_ZERO_PAGE_INDIRECT"
    case ZeroPageIndirectYIndexed => "ZERO_PAGE_INDIRECT_Y_INDEXED"
    case AssemblerOption => "ASSEMBLER_OPTION"
    case Label => "LABEL"
    case JumpLabel => "JUMP_LABEL"
  }

  /** `Addr_Modes_Strings`, the printable names indexed by `value - 1`. */
  const AddrModeStrings: seq<string> := [
    "IMPLIED", "ACCUMULATOR", "IMMEDIATE", "ABSOLUTE", "X_INDEXED_ABSOLUTE",
    "Y_INDEXED_ABSOLUTE", "ABSOLUTE_INDIRECT", "ZERO_PAGE", "X_INDEXED_ZERO_PAGE",
    "Y_INDEXED_ZERO_PAGE", "X_INDEXED_ZERO_PAGE_INDIRECT", "ZERO_PAGE_INDIRECT_Y_INDEXED",
    "ASSEMBLER_OPTION", "LABEL", "JUMP_LABEL"
  ]

  /** The name used in diagnostics, `Addr_Modes_Strings[mode.value - 1]`. */
  function ModeName(m: AddrMode): (s: string)
    ensures s == EnumName(m)
  {
    AddrModeStrings[ModeValue(m) - 1]
  }

  /** The enumeration values are exactly 1..15, one per member. */
  lemma {:induction false} ModeValuesAreOneToFifteen()
    ensures forall m1, m2 :: ModeValue(m1) == ModeValue(m2) ==> m1 == m2
    ensures forall i | 0 <= i < 15 :: ModeValue(AllModes[i]) == i + 1
    ensures |AllModes| == 15
  {
  }

  /** `TokenType`; each kind is named after the string the source uses for it. */
  datatype TokenType =
    | Mnemonic        // "MNEMONIC"
    | Literal8        // "LITERAL_8BIT"
    | Literal16       // "LITERAL_16BIT"
    | Hash            // "HASH"
    | OpenBracket     // "OPENING_BRACKET"
    | CloseBracket    // "CLOSING_BRACKET"
    | Comma           // "COMMA"
    | Equals          // "EQUALS"
    | OptionName      // "ASSEMBLER_OPTION"
    | Opt             // "OPT"
    | Colon           // "COLON"
    | Unknown         // "UNKNOWN"
    | Eof             // "EOF"

  /** `Token`: a kind and the text it was scanned from. */
  datatype Token = Token(kind: TokenType, value: string)

  /** `addressing_modes`: the exact token-kind sequence of every mode. */
  function Grammar(m: AddrMode): seq<TokenType> {
    match m
    case Implied => [Mnemonic, Eof]
    case Accumulator => [Mnemonic, Mnemonic, Eof]
    case Immediate => [Mnemonic, Hash, Literal8, Eof]
    case Absolute => [Mnemonic, Literal16, Eof]
    case XIndexedAbsolute => [Mnemonic, Literal16, Comma, Mnemonic, Eof]
    case YIndexedAbsolute => [Mnemonic, Literal16, Comma, Mnemonic, Eof]
    case AbsoluteIndirect => [Mnemonic, OpenBracket, Literal16, CloseBracket, Eof]
    case ZeroPage => [Mnemonic, Literal8, Eof]
    case XIndexedZeroPage => [Mnemonic, Literal8, Comma, Mnemonic, Eof]
    case YIndexedZeroPage => [Mnemonic, Literal8, Comma, Mnemonic, Eof]
    case XIndexedZeroPageIndirect => [Mnemonic, OpenBracket, Literal8, Comma, Mnemonic, CloseBracket, Eof]
    case ZeroPageIndirectYIndexed => [Mnemonic, OpenBracket, Literal8, CloseBracket, Comma, Mnemonic, Eof]
    case AssemblerOption => [Hash, Opt, Equals, OptionName, Eof]
    case Label => [Mnemonic, Colon, Eof]
    case JumpLabel => [Mnemonic, Comma, Mnemonic, Eof]
  }

  /** Every grammar ends with the end-of-line kind and holds it nowhere else. */
  lemma {:induction false} GrammarsEndWithEof(m: AddrMode)
    ensures |Grammar(m)| >= 2 && Grammar(m)[|Grammar(m)| - 1] == Eof
    ensures forall k | 0 <= k < |Grammar(m)| - 1 :: Grammar(m)[k] != Eof
  {
  }

  /**
   * Two different modes share a grammar only for the X/Y-indexed absolute
   * pair and the X/Y-indexed zero-page pair.
   */
  lemma {:induction false} GrammarsDistinctExceptIndexPairs(m1: AddrMode, m2: AddrMode)
    requires m1 != m2
    ensures Grammar(m1) == Grammar(m2) <==>
      ({m1, m2} == {XIndexedAbsolute, YIndexedAbsolute} || {m1, m2} == {XIndexedZeroPage, YIndexedZeroPage})
  {
  }

  /** The key of the option that silences the undocumented-instruction advisory. */
  const NoUndocumentedWarning: string := "__NO-UNDOCUMENTED-INSTRUCTION-WARNING"

  const KeepTemporaryFiles: string := "_KEEP_TEMPORARY_FILES"

  /** `assembler_options` as the module creates it. */
  const InitialOptions: map<string, bool> := map[NoUndocumentedWarning := false, KeepTemporaryFiles := false]

  /** The registry starts with exactly the two keys, both off. */
  lemma {:induction false} InitialOptionsShape()
    ensures InitialOptions.Keys == {NoUndocumentedWarning, KeepTemporaryFiles}
    ensures |InitialOptions| == 2
    ensures forall k | k in InitialOptions :: !InitialOptions[k]
  {
  }

  /** What a call of `error` does after printing its message. */
  datatype ErrorEffect = Returns | Exits(status: int)

  /** `error(msg, code=1, crash=False)`: the message is always printed; only `crash` exits, with `-code`. */
  function Error(code: int := 1, crash: bool := false): (e: ErrorEffect)
    ensures e.Exits? <==> crash
    ensures e.Exits? ==> e.status == -code
  {
    if crash then Exits(-code) else Returns
  }

  /** The status a POSIX parent sees for `exit(status)`: the low eight bits. */
  function ProcessStatus(status: int): (b: int)
    ensures 0 <= b < 256 && (b - status) % 256 == 0
  {
    status % 256
  }

  /** With its defaults `error` returns; a crashing call is seen as status 255. */
  lemma {:induction false} ErrorDefaults()
    ensures Error() == Returns
    ensures Error(crash := true) == Exits(-1)
    ensures ProcessStatus(Error(crash := true).status) == 255
  {
  }

  /**
   * The fatal conditions of one assembly run. Those reported through
   * `error(..., crash=True)` exit with `-1`; the others are Python exceptions
   * that nothing catches, which end the interpreter with status 1.
   */
  datatype AsmError =
    | UnknownAddressingMode(line: nat)                                  // error(..., crash=True)
    | IllegalAddressingMode(line: nat, mnemonic: string, mode: AddrMode) // error(..., crash=True)
    | UnknownMnemonic(line: nat, mnemonic: string)                       // KeyError
    | MissingBase(line: nat)                                             // TypeError: int(s, base=None)
    | InvalidDigits(line: nat)                                           // ValueError: int(s, base)
    | OperandOutOfRange(line: nat)                                       // struct.error

  /** The process status an aborted run leaves. */
  function ExitStatus(e: AsmError): (s: int)
    ensures s == 255 <==> e.UnknownAddressingMode? || e.IllegalAddressingMode?
    ensures s != 255 ==> s == 1
  {
    match e
    case UnknownAddressingMode(_) => ProcessStatus(Error(crash := true).status)
    case IllegalAddressingMode(_, _, _) => ProcessStatus(Error(crash := true).status)
    case _ => 1
  }
}
