/**
 * The one-pass assembly loop: per source line, tokenize the cleaned line,
 * resolve its addressing mode, and then either record an assembler option,
 * record a label at the current program counter, or encode an instruction
 * (opcode byte from the instruction table, then an 8-bit operand, a
 * little-endian 16-bit operand or a signed branch displacement).
 *
 * `Step` and `Exec` are the specification; the class `Assembler` is the
 * loop itself, with the state the program keeps in module-level variables
 * (`position`, `labels`, the option dictionary, the output file and the
 * messages it prints).
 */
module Assembler {
  import opened Wrappers
  import opened Chars
  import opened Include
  import opened Lexer
  import opened Resolver
  import opened Preprocessor
  import ValueLiteral

  type byte = x: int | 0 <= x < 256

  /**
   * One row of an instruction's entry in the instruction table: the mode,
   * its opcode, and the flag the program reads as "documented".
   */
  datatype TableEntry = TableEntry(mode: AddrMode, opcode: byte, documented: bool)

  /** `tables.instruction_info`: mnemonic to its rows, in table order. */
  type InstructionTable = map<string, seq<TableEntry>>

  /** The non-fatal messages the loop prints. */
  datatype Warning =
    | Undocumented(line: nat, mnemonic: string, mode: AddrMode) // the undocumented-instruction warning
    | BranchOutOfRange(line: nat)                               // `error(...)` with crash=False

  /** What the loop keeps between lines. */
  datatype State = State(
    position: nat,
    labels: seq<(string, nat)>,
    options: map<string, bool>,
    out: seq<byte>,
    warnings: seq<Warning>)

  /** Nothing emitted, no labels, the two registered options. */
  const Start: State := State(0, [], InitialOptions, [], [])

  /** After a line: go on with the new state, or stop with the bytes written so far. */
  datatype Outcome = Running(st: State) | Aborted(st: State, err: AsmError)

  /** The branch mnemonics whose absolute operand becomes a relative displacement. */
  const Branches: seq<string> := ["BCC", "BCS", "BEQ", "BMI", "BNE", "BPL", "BVC", "BVS"]

  /** `is_mnemonic`: the mnemonic equals one of the candidates. */
  function IsMnemonic(mnemonic: string, matches: seq<string>): bool {
    if matches == [] then false
    else if mnemonic == matches[0] then true
    else IsMnemonic(mnemonic, matches[1..])
  }

  /** The early-return loop of `is_mnemonic` is a membership test. */
  lemma {:induction false} IsMnemonicIsMembership(mnemonic: string, matches: seq<string>)
    ensures IsMnemonic(mnemonic, matches) <==> mnemonic in matches
  {
    if matches != [] && mnemonic != matches[0] {
      IsMnemonicIsMembership(mnemonic, matches[1..]);
      assert mnemonic in matches <==> mnemonic in matches[1..];
    }
  }

  /** `dict.get(key, default)` */
  function OptionGet(options: map<string, bool>, key: string, default: bool): bool {
    if key in options then options[key] else default
  }

  // ---------------------------------------------------------------------------
  // Operand bytes
  // ---------------------------------------------------------------------------

  /** How a byte reads as a two's-complement number. */
  function Signed(b: byte): int {
    if b < 128 then b else b - 256
  }

  /** `struct.pack('<b', offset)`: the two's-complement byte of an offset in -128..127. */
  function SignedByte(offset: int): byte
    requires -128 <= offset < 128
  {
    if offset < 0 then offset + 256 else offset
  }

  /** The byte written for a displacement reads back as that displacement. */
  lemma {:induction false} SignedByteRoundTrip(offset: int)
    requires -128 <= offset < 128
    ensures Signed(SignedByte(offset)) == offset
    ensures SignedByte(offset) as int == offset % 256
  {
  }

  /** `struct.pack('<H', value)`: low byte first. */
  function LittleEndian16(value: nat): seq<byte>
    requires value < 0x1_0000
  {
    [value % 256, value / 256]
  }

  /** The two bytes, low then high, spell the value back. */
  lemma {:induction false} LittleEndian16RoundTrip(value: nat)
    requires value < 0x1_0000
    ensures var bs := LittleEndian16(value);
      |bs| == 2 && bs[0] as int + 256 * (bs[1] as int) == value
  {
  }

  // ---------------------------------------------------------------------------
  // Jumps to labels
  // ---------------------------------------------------------------------------

  /** The tokens the loop fakes for a jump whose label is at `offset`. */
  function FakedTokens(mnemonic: string, offset: nat): seq<Token> {
    [Token(Mnemonic, mnemonic), Token(Literal16, "$" + ValueLiteral.Format04X(offset)), Token(Eof, "EOF")]
  }

  /**
   * The label loop of a jump line: every label, in declaration order, whose
   * name equals the current operand replaces the line by the faked tokens,
   * evaluated again. The loop has no `break`.
   */
  function ResolveJump(r: Resolved, labels: seq<(string, nat)>, linenum: nat): Result<Resolved, AsmError>
    decreases |labels|
  {
    if labels == [] then Ok(r)
    else if r.arg == labels[0].0 then
      match EvaluateLine(FakedTokens(r.mnemonic, labels[0].1), linenum)
      case Err(e) => Err(e)
      case Ok(r') => ResolveJump(r', labels[1..], linenum)
    else ResolveJump(r, labels[1..], linenum)
  }

  /** The offset of the first label named `name`, if any. */
  function FirstLabel(labels: seq<(string, nat)>, name: string): (r: Option<nat>)
    ensures r.None? <==> forall k | 0 <= k < |labels| :: labels[k].0 != name
    ensures r.Some? ==> exists k | 0 <= k < |labels| ::
      labels[k] == (name, r.value) && forall j | 0 <= j < k :: labels[j].0 != name
    decreases |labels|
  {
    if labels == [] then None
    else if labels[0].0 == name then Some(labels[0].1)
    else
      var r := FirstLabel(labels[1..], name);
      if r.Some? then
        var k :| 0 <= k < |labels| - 1 && labels[1..][k] == (name, r.value)
          && forall j | 0 <= j < k :: labels[1..][j].0 != name;
        assert labels[k + 1] == (name, r.value);
        r
      else r
  }

  /** A label name as the lexer produces it cannot be mistaken for a `$` literal. */
  predicate PlainName(name: string) {
    |name| > 0 && name[0] != '$'
  }

  /** Every recorded label has a plain name. */
  predicate Valid(st: State) {
    forall k | 0 <= k < |st.labels| :: PlainName(st.labels[k].0)
  }

  // ---------------------------------------------------------------------------
  // Table lookup
  // ---------------------------------------------------------------------------

  /** The first row at or after `from` for the mode. */
  function ModeIndexFrom(entries: seq<TableEntry>, mode: AddrMode, from: nat): (r: Option<nat>)
    requires from <= |entries|
    ensures r.Some? ==> from <= r.value < |entries| && entries[r.value].mode == mode
    decreases |entries| - from
  {
    if from == |entries| then None
    else if entries[from].mode == mode then Some(from)
    else ModeIndexFrom(entries, mode, from + 1)
  }

  /** The search finds the first row of the mode, or reports that there is none. */
  lemma {:induction false} ModeIndexFromIsFirst(entries: seq<TableEntry>, mode: AddrMode, from: nat)
    requires from <= |entries|
    ensures var r := ModeIndexFrom(entries, mode, from);
      (r.Some? ==>
        from <= r.value < |entries| && entries[r.value].mode == mode
        && forall j | from <= j < r.value :: entries[j].mode != mode)
      && (r.None? ==> forall j | from <= j < |entries| :: entries[j].mode != mode)
    decreases |entries| - from
  {
    if from < |entries| && entries[from].mode != mode {
      ModeIndexFromIsFirst(entries, mode, from + 1);
    }
  }

  /** The index the table loop breaks at; None is its `else` branch. */
  function ModeIndex(entries: seq<TableEntry>, mode: AddrMode): (r: Option<nat>)
    ensures r.Some? ==> r.value < |entries| && entries[r.value].mode == mode
  {
    ModeIndexFrom(entries, mode, 0)
  }

  // ---------------------------------------------------------------------------
  // One line
  // ---------------------------------------------------------------------------

  /** A branch mnemonic with an absolute operand: the operand is a displacement. */
  predicate IsBranch(r: Resolved) {
    r.mode == Absolute && IsMnemonic(r.mnemonic, Branches)
  }

  /** The undocumented-instruction warning fires for this row under these options. */
  predicate WarnsUndocumented(entry: TableEntry, options: map<string, bool>) {
    entry.documented && OptionGet(options, NoUndocumentedWarning, true) == false
  }

  /** The operand bytes once the value is known; `st` already holds the opcode. */
  function EncodeOperand(st: State, r: Resolved, value: nat, linenum: nat): Outcome {
    var next := st.position + SizeInBytes(r.mode);
    if IsBranch(r) then
      var offset := value - (st.position + 2);
      var st2 := if offset < -127 || value > 128
                 then st.(warnings := st.warnings + [BranchOutOfRange(linenum)])
                 else st;
      if -128 <= offset < 128 then Running(st2.(out := st2.out + [SignedByte(offset)], position := next))
      else Aborted(st2, OperandOutOfRange(linenum))
    else if r.argType == 0 then Running(st.(position := next))
    else if r.argType == 8 then
      if value < 256 then Running(st.(out := st.out + [value], position := next))
      else Aborted(st, OperandOutOfRange(linenum))
    else
      if value < 0x1_0000 then Running(st.(out := st.out + LittleEndian16(value), position := next))
      else Aborted(st, OperandOutOfRange(linenum))
  }

  /** The opcode byte written, after the undocumented-instruction check. */
  function WriteOpcode(st: State, entry: TableEntry, r: Resolved, linenum: nat): State {
    var warnings := if WarnsUndocumented(entry, st.options)
                    then st.warnings + [Undocumented(linenum, r.mnemonic, r.mode)]
                    else st.warnings;
    st.(out := st.out + [entry.opcode], warnings := warnings)
  }

  /** Table lookup, opcode, operand and program counter for an instruction line. */
  function Encode(table: InstructionTable, st: State, r: Resolved, linenum: nat): Outcome {
    if r.mnemonic !in table then Aborted(st, UnknownMnemonic(linenum, r.mnemonic))
    else
      var entries := table[r.mnemonic];
      match ModeIndex(entries, r.mode)
      case None => Aborted(st, IllegalAddressingMode(linenum, r.mnemonic, r.mode))
      case Some(i) =>
        var entry := entries[i];
        var st1 := WriteOpcode(st, entry, r, linenum);
        if r.arg == "" then Running(st1.(position := st.position + SizeInBytes(r.mode)))
        else match ValueLiteral.LiteralValue(r.arg)
          case Err(fault) => Aborted(st1, if fault.NoBase? then MissingBase(linenum) else InvalidDigits(linenum))
          case Ok(value) => EncodeOperand(st1, r, value, linenum)
  }

  /** The line as `evaluate_line` sees it. */
  function Represent(line: string, linenum: nat): Result<Resolved, AsmError> {
    EvaluateLine(Tokens(CleanLine(line)), linenum)
  }

  /**
   * An instruction line after the label loop: a jump line is rewritten by
   * the labels recorded so far, any other line is left as `evaluate_line`
   * returned it.
   */
  function Instruction(st: State, r: Resolved, linenum: nat): Result<Resolved, AsmError> {
    if r.mode == JumpLabel then ResolveJump(r, st.labels, linenum) else Ok(r)
  }

  /** One iteration of the loop, for the line numbered `linenum` (1-based). */
  function Step(table: InstructionTable, st: State, line: string, linenum: nat): Outcome {
    match Represent(line, linenum)
    case Err(e) => Aborted(st, e)
    case Ok(r) =>
      if r.mode == AssemblerOption then Running(st.(options := st.options[r.arg := true]))
      else if r.mode == Label then Running(st.(labels := st.labels + [(r.arg, st.position)]))
      else
        match Instruction(st, r, linenum)
        case Err(e) => Aborted(st, e)
        case Ok(r2) => Encode(table, st, r2, linenum)
  }

  /**
   * The loop over the lines for any per-line step: the state after the first
   * `n` lines, numbered from 1; the first fatal line ends the run.
   */
  function Loop(step: (State, string, nat) -> Outcome, lines: seq<string>, n: nat): Outcome
    requires n <= |lines|
  {
    if n == 0 then Running(Start)
    else match Loop(step, lines, n - 1)
      case Aborted(st, e) => Aborted(st, e)
      case Running(st) => step(st, lines[n - 1], n)
  }

  /** The outcome of the assembly loop after the first `n` lines. */
  function Exec(table: InstructionTable, lines: seq<string>, n: nat): Outcome
    requires n <= |lines|
  {
    Loop((st: State, line: string, k: nat) => Step(table, st, line, k), lines, n)
  }

  // ---------------------------------------------------------------------------
  // What a lexed line resolves to
  // ---------------------------------------------------------------------------

  /** A non-empty run of letters: the text of a mnemonic token. */
  predicate LetterRun(s: string) {
    |s| > 0 && forall k | 0 <= k < |s| :: IsLetter(s[k])
  }

  /** The shape `Tokens` guarantees: well-formed non-empty tokens, then the end marker. */
  predicate Lexed(ts: seq<Token>) {
    |ts| >= 1
    && (forall k | 0 <= k < |ts| - 1 :: WellFormedToken(ts[k]) && ts[k].kind != Eof)
    && forall k | 0 <= k < |ts| :: |ts[k].value| > 0
  }

  /** The shape of a tuple `evaluate_line` extracts from lexed tokens. */
  predicate ShapeOf(r: Resolved) {
    r.argType == ArgType(r.mode)
    && (r.mode == Label ==> LetterRun(r.arg) && r.mnemonic == "")
    && (r.mode == JumpLabel ==> LetterRun(r.arg))
    && (r.mode == AssemblerOption ==> |r.arg| >= 3 && r.arg[0] == '_' && r.arg[1] == '_')
    && (r.arg == "" <==> r.mode == Implied || r.mode == Accumulator)
  }

  lemma {:induction false} ExtractShape(ts: seq<Token>, m: AddrMode)
    requires Lexed(ts) && Kinds(ts) == Grammar(m)
    ensures |ts| == |Grammar(m)| && ShapeOf(Extract(ts, m))
  {
    KindsAt(ts);
    GrammarsEndWithEof(m);
  }

  /**
   * The representation of any source line: the width is the mode's declared
   * width, the label of a label line or a jump line is a letter run, the
   * option name starts with `__`, and the operand is empty exactly for the
   * implied and accumulator modes.
   */
  lemma {:induction false} RepresentShape(line: string, linenum: nat)
    ensures Represent(line, linenum).Ok? ==> ShapeOf(Represent(line, linenum).value)
  {
    var ts := Tokens(CleanLine(line));
    TokensShape(CleanLine(line));
    assert Lexed(ts);
    match FirstMode(Kinds(ts))
    case None =>
    case Some(m) => ExtractShape(ts, m);
  }

  /**
   * `_KEEP_TEMPORARY_FILES` has a single leading underscore, so no option
   * directive can name it.
   */
  lemma {:induction false} KeepTemporaryFilesUnsettable(line: string, linenum: nat)
    ensures var r := Represent(line, linenum);
      r.Ok? && r.value.mode == AssemblerOption ==> r.value.arg != KeepTemporaryFiles
  {
    var r := Represent(line, linenum);
    if r.Ok? && r.value.mode == AssemblerOption {
      RepresentShape(line, linenum);
      OptionNameNotKeep(r.value);
    }
  }

  lemma {:induction false} OptionNameNotKeep(r: Resolved)
    requires ShapeOf(r) && r.mode == AssemblerOption
    ensures r.arg != KeepTemporaryFiles
  {
    assert r.arg[1] == '_' != KeepTemporaryFiles[1];
  }

  // ---------------------------------------------------------------------------
  // Jumps resolve to the first earlier label
  // ---------------------------------------------------------------------------

  /** With no label of the operand's name, the label loop leaves the line alone. */
  lemma {:induction false} ResolveJumpUnmatched(r: Resolved, labels: seq<(string, nat)>, linenum: nat)
    requires forall k | 0 <= k < |labels| :: labels[k].0 != r.arg
    ensures ResolveJump(r, labels, linenum) == Ok(r)
    decreases |labels|
  {
    if labels != [] {
      assert labels[0].0 != r.arg;
      ResolveJumpUnmatched(r, labels[1..], linenum);
    }
  }

  /**
   * Although the label loop never breaks, a jump resolves to the first label
   * of its name: the rewritten operand starts with `$` and no plain label
   * name equals it. The result is the absolute mode with `$` and the offset
   * in four or more upper-case hex digits; with no such label the line is
   * unchanged.
   */
  lemma {:induction false} ResolveJumpIsFirstLabel(r: Resolved, labels: seq<(string, nat)>, linenum: nat)
    requires forall k | 0 <= k < |labels| :: PlainName(labels[k].0)
    ensures ResolveJump(r, labels, linenum) ==
      match FirstLabel(labels, r.arg)
      case None => Ok(r)
      case Some(offset) => Ok(Resolved(r.mnemonic, Absolute, "$" + ValueLiteral.Format04X(offset), 16))
    decreases |labels|
  {
    if labels != [] {
      if r.arg == labels[0].0 {
        var literal := "$" + ValueLiteral.Format04X(labels[0].1);
        FakedJumpIsAbsolute(r.mnemonic, literal, linenum);
        var r' := Resolved(r.mnemonic, Absolute, literal, 16);
        assert literal[0] == '$';
        forall k | 0 <= k < |labels[1..]| ensures labels[1..][k].0 != r'.arg {
          assert PlainName(labels[k + 1].0);
        }
        ResolveJumpUnmatched(r', labels[1..], linenum);
      } else {
        ResolveJumpIsFirstLabel(r, labels[1..], linenum);
      }
    }
  }

  /** The offset a resolved jump carries converts back to the label's offset. */
  lemma {:induction false} ResolvedJumpOperand(offset: nat)
    ensures ValueLiteral.LiteralValue("$" + ValueLiteral.Format04X(offset)) == Ok(offset)
  {
    ValueLiteral.DollarHexRoundTrip(offset);
  }

  // ---------------------------------------------------------------------------
  // Option and label lines
  // ---------------------------------------------------------------------------

  /**
   * An option line emits nothing, keeps the program counter, the labels and
   * the messages, and sets its option to True whatever its name: an unknown
   * name is added, a known one overwritten, the others kept.
   */
  lemma {:induction false} OptionLine(table: InstructionTable, st: State, line: string, linenum: nat)
    requires Represent(line, linenum).Ok? && Represent(line, linenum).value.mode == AssemblerOption
    ensures var name := Represent(line, linenum).value.arg;
      var o := Step(table, st, line, linenum);
      o.Running?
      && o.st.position == st.position && o.st.out == st.out
      && o.st.labels == st.labels && o.st.warnings == st.warnings
      && o.st.options.Keys == st.options.Keys + {name} && o.st.options[name]
      && forall k | k in st.options && k != name :: o.st.options[k] == st.options[k]
  {
  }

  /**
   * A label line emits nothing, keeps the program counter, and appends the
   * label with the current program counter at the end of the label list.
   */
  lemma {:induction false} LabelLine(table: InstructionTable, st: State, line: string, linenum: nat)
    requires Represent(line, linenum).Ok? && Represent(line, linenum).value.mode == Label
    ensures var name := Represent(line, linenum).value.arg;
      var o := Step(table, st, line, linenum);
      o.Running?
      && o.st.position == st.position && o.st.out == st.out
      && o.st.options == st.options && o.st.warnings == st.warnings
      && o.st.labels == st.labels + [(name, st.position)]
  {
  }

  /** A line that is neither an option, a label nor a jump to a label is encoded as it was resolved. */
  lemma {:induction false} InstructionStep(table: InstructionTable, st: State, line: string, linenum: nat, r: Resolved)
    requires Represent(line, linenum) == Ok(r)
    requires r.mode != AssemblerOption && r.mode != Label && r.mode != JumpLabel
    ensures Step(table, st, line, linenum) == Encode(table, st, r, linenum)
  {
  }

  /**
   * Encoding an instruction touches neither labels nor options, and only
   * extends the output and the messages and advances the program counter.
   */
  lemma {:induction false} EncodeFrame(table: InstructionTable, st: State, r: Resolved, linenum: nat)
    ensures var o := Encode(table, st, r, linenum);
      o.st.labels == st.labels && o.st.options == st.options
      && st.out <= o.st.out && st.warnings <= o.st.warnings && st.position <= o.st.position
  {
    if r.mnemonic in table {
      var entries := table[r.mnemonic];
      match ModeIndex(entries, r.mode)
      case None =>
      case Some(i) =>
        var entry := entries[i];
        var st1 := WriteOpcode(st, entry, r, linenum);
        assert st.out <= st1.out && st.warnings <= st1.warnings;
        if r.arg != "" {
          match ValueLiteral.LiteralValue(r.arg)
          case Err(_) =>
          case Ok(value) => EncodeOperandFrame(st1, r, value, linenum);
        }
    }
  }

  lemma {:induction false} EncodeOperandFrame(st: State, r: Resolved, value: nat, linenum: nat)
    ensures var o := EncodeOperand(st, r, value, linenum);
      o.st.labels == st.labels && o.st.options == st.options
      && st.out <= o.st.out && st.warnings <= o.st.warnings && st.position <= o.st.position
  {
    var o := EncodeOperand(st, r, value, linenum);
    assert st.out <= o.st.out;
    assert st.warnings <= o.st.warnings;
  }

  /** Labels recorded by the loop keep plain names. */
  lemma {:induction false} StepKeepsValid(table: InstructionTable, st: State, line: string, linenum: nat)
    requires Valid(st)
    ensures Valid(Step(table, st, line, linenum).st)
  {
    RepresentShape(line, linenum);
    match Represent(line, linenum)
    case Err(_) =>
    case Ok(r) =>
      if r.mode != AssemblerOption && r.mode != Label {
        match Instruction(st, r, linenum)
        case Err(_) =>
        case Ok(r2) => EncodeFrame(table, st, r2, linenum);
      }
  }

  lemma {:induction false} LoopKeepsValid(step: (State, string, nat) -> Outcome, lines: seq<string>, n: nat)
    requires n <= |lines|
    requires forall st: State, line: string, k: nat | Valid(st) :: Valid(step(st, line, k).st)
    ensures Valid(Loop(step, lines, n).st)
  {
    if n > 0 {
      LoopKeepsValid(step, lines, n - 1);
    }
  }

  /** Every state of a run, the final one included, has plain label names. */
  lemma {:induction false} ExecValid(table: InstructionTable, lines: seq<string>, n: nat)
    requires n <= |lines|
    ensures Valid(Exec(table, lines, n).st)
  {
    var step := (st: State, line: string, k: nat) => Step(table, st, line, k);
    forall st: State, line: string, k: nat | Valid(st) ensures Valid(step(st, line, k).st) {
      StepKeepsValid(table, st, line, k);
    }
    LoopKeepsValid(step, lines, n);
  }

  /**
   * A jump line in a run is looked up among the labels recorded so far (the
   * labels of earlier lines only) and encoded as an absolute instruction at
   * the first one of its name; without one it is encoded as a jump-label
   * instruction.
   */
  lemma {:induction false} JumpLine(table: InstructionTable, st: State, line: string, linenum: nat)
    requires Valid(st)
    requires Represent(line, linenum).Ok? && Represent(line, linenum).value.mode == JumpLabel
    ensures var r := Represent(line, linenum).value;
      Step(table, st, line, linenum) ==
        match FirstLabel(st.labels, r.arg)
        case None => Encode(table, st, r, linenum)
        case Some(offset) =>
          Encode(table, st, Resolved(r.mnemonic, Absolute, "$" + ValueLiteral.Format04X(offset), 16), linenum)
  {
    ResolveJumpIsFirstLabel(Represent(line, linenum).value, st.labels, linenum);
  }

  // ---------------------------------------------------------------------------
  // The run only grows; errors carry their line
  // ---------------------------------------------------------------------------

  /** `b` extends `a`: program counter, labels, output and messages only grow. */
  predicate Grows(a: State, b: State) {
    a.position <= b.position && a.labels <= b.labels && a.out <= b.out && a.warnings <= b.warnings
  }

  lemma {:induction false} StepGrows(table: InstructionTable, st: State, line: string, linenum: nat)
    ensures Grows(st, Step(table, st, line, linenum).st)
  {
    match Represent(line, linenum)
    case Err(_) =>
    case Ok(r) =>
      if r.mode != AssemblerOption && r.mode != Label {
        match Instruction(st, r, linenum)
        case Err(_) =>
        case Ok(r2) => EncodeFrame(table, st, r2, linenum);
      }
  }

  lemma {:induction false} LoopGrows(step: (State, string, nat) -> Outcome, lines: seq<string>, m: nat, n: nat)
    requires m <= n <= |lines|
    requires forall st: State, line: string, k: nat :: Grows(st, step(st, line, k).st)
    ensures Grows(Loop(step, lines, m).st, Loop(step, lines, n).st)
    decreases n - m
  {
    if m < n {
      LoopGrows(step, lines, m, n - 1);
      var a := Loop(step, lines, m).st;
      var b := Loop(step, lines, n - 1).st;
      var c := Loop(step, lines, n).st;
      assert Grows(b, c);
      assert a.labels <= c.labels by { assert a.labels <= b.labels <= c.labels; }
      assert a.out <= c.out by { assert a.out <= b.out <= c.out; }
      assert a.warnings <= c.warnings by { assert a.warnings <= b.warnings <= c.warnings; }
    }
  }

  /**
   * Along a run the program counter never decreases, labels are only
   * appended, and output and messages are only appended to.
   */
  lemma {:induction false} ExecGrows(table: InstructionTable, lines: seq<string>, m: nat, n: nat)
    requires m <= n <= |lines|
    ensures Grows(Exec(table, lines, m).st, Exec(table, lines, n).st)
  {
    var step := (st: State, line: string, k: nat) => Step(table, st, line, k);
    forall st: State, line: string, k: nat ensures Grows(st, step(st, line, k).st) {
      StepGrows(table, st, line, k);
    }
    LoopGrows(step, lines, m, n);
  }

  /** Once a line is fatal, no later line changes the outcome. */
  lemma {:induction false} LoopAbortSticks(step: (State, string, nat) -> Outcome, lines: seq<string>, m: nat, n: nat)
    requires m <= n <= |lines| && Loop(step, lines, m).Aborted?
    ensures Loop(step, lines, n) == Loop(step, lines, m)
    decreases n - m
  {
    if m < n {
      LoopAbortSticks(step, lines, m, n - 1);
    }
  }

  lemma {:induction false} ResolveJumpErrorLine(r: Resolved, labels: seq<(string, nat)>, linenum: nat)
    ensures ResolveJump(r, labels, linenum).Err? ==> ResolveJump(r, labels, linenum).error.line == linenum
    decreases |labels|
  {
    if labels != [] {
      if r.arg == labels[0].0 {
        match EvaluateLine(FakedTokens(r.mnemonic, labels[0].1), linenum)
        case Err(_) =>
        case Ok(r') => ResolveJumpErrorLine(r', labels[1..], linenum);
      } else {
        ResolveJumpErrorLine(r, labels[1..], linenum);
      }
    }
  }

  lemma {:induction false} EncodeErrorLine(table: InstructionTable, st: State, r: Resolved, linenum: nat)
    ensures Encode(table, st, r, linenum).Aborted? ==> Encode(table, st, r, linenum).err.line == linenum
  {
    if r.mnemonic in table {
      var entries := table[r.mnemonic];
      match ModeIndex(entries, r.mode)
      case None =>
      case Some(i) =>
        var entry := entries[i];
        var st1 := WriteOpcode(st, entry, r, linenum);
        if r.arg != "" {
          match ValueLiteral.LiteralValue(r.arg)
          case Err(_) =>
          case Ok(value) =>
            var o := EncodeOperand(st1, r, value, linenum);
            assert o.Aborted? ==> o.err == OperandOutOfRange(linenum);
        }
    }
  }

  /** A fatal line reports its own line number. */
  lemma {:induction false} StepErrorLine(table: InstructionTable, st: State, line: string, linenum: nat)
    ensures Step(table, st, line, linenum).Aborted? ==> Step(table, st, line, linenum).err.line == linenum
  {
    match Represent(line, linenum)
    case Err(_) =>
    case Ok(r) =>
      if r.mode != AssemblerOption && r.mode != Label {
        if r.mode == JumpLabel {
          ResolveJumpErrorLine(r, st.labels, linenum);
        }
        match Instruction(st, r, linenum)
        case Err(_) =>
        case Ok(r2) => EncodeErrorLine(table, st, r2, linenum);
      }
  }

  lemma {:induction false} LoopErrorLine(step: (State, string, nat) -> Outcome, lines: seq<string>, n: nat)
    requires n <= |lines|
    requires forall st: State, line: string, k: nat | step(st, line, k).Aborted? :: step(st, line, k).err.line == k
    ensures Loop(step, lines, n).Aborted? ==> 1 <= Loop(step, lines, n).err.line <= n
  {
    if n > 0 {
      LoopErrorLine(step, lines, n - 1);
    }
  }

  /** A run that stops names a line that exists: between 1 and the number of lines run. */
  lemma {:induction false} ExecErrorLine(table: InstructionTable, lines: seq<string>, n: nat)
    requires n <= |lines|
    ensures Exec(table, lines, n).Aborted? ==> 1 <= Exec(table, lines, n).err.line <= n
  {
    var step := (st: State, line: string, k: nat) => Step(table, st, line, k);
    forall st: State, line: string, k: nat | step(st, line, k).Aborted? ensures step(st, line, k).err.line == k {
      StepErrorLine(table, st, line, k);
    }
    LoopErrorLine(step, lines, n);
  }

  /** `clean_line` upper-cases first, so the case of the source text never matters. */
  lemma {:induction false} StepIgnoresCase(table: InstructionTable, st: State, line: string, linenum: nat)
    ensures Step(table, st, UpperString(line), linenum) == Step(table, st, line, linenum)
  {
    CleanLineIgnoresCase(line);
  }

  // ---------------------------------------------------------------------------
  // Encoding
  // ---------------------------------------------------------------------------

  /**
   * An unknown mnemonic and a mode missing from the mnemonic's rows are
   * fatal and write nothing; otherwise the opcode of the first row of the
   * mode is written right after the earlier output, whatever happens to the
   * operand.
   */
  lemma {:induction false} EncodeOpcode(table: InstructionTable, st: State, r: Resolved, linenum: nat)
    ensures var o := Encode(table, st, r, linenum);
      (r.mnemonic !in table ==> o == Aborted(st, UnknownMnemonic(linenum, r.mnemonic)))
      && (r.mnemonic in table && ModeIndex(table[r.mnemonic], r.mode).None? ==>
            o == Aborted(st, IllegalAddressingMode(linenum, r.mnemonic, r.mode)))
      && (r.mnemonic in table && ModeIndex(table[r.mnemonic], r.mode).Some? ==>
            |o.st.out| > |st.out| && o.st.out[..|st.out|] == st.out
            && o.st.out[|st.out|] == table[r.mnemonic][ModeIndex(table[r.mnemonic], r.mode).value].opcode)
  {
    if r.mnemonic in table {
      var entries := table[r.mnemonic];
      match ModeIndex(entries, r.mode)
      case None =>
      case Some(i) =>
        var entry := entries[i];
        var st1 := WriteOpcode(st, entry, r, linenum);
        var o := Encode(table, st, r, linenum).st;
        assert st1.out == st.out + [entry.opcode];
        if r.arg == "" {
          assert o.out == st1.out;
        } else {
          match ValueLiteral.LiteralValue(r.arg)
          case Err(_) =>
            assert o == st1;
          case Ok(value) =>
            assert o == EncodeOperand(st1, r, value, linenum).st;
            OperandKeepsPrefix(st1, r, value, linenum);
        }
        assert |o.out| >= |st1.out| && o.out[..|st1.out|] == st1.out;
        assert o.out[|st.out|] == o.out[..|st1.out|][|st.out|] == entry.opcode;
        assert o.out[..|st.out|] == st1.out[..|st.out|];
    }
  }

  /** The operand step, whether it goes through or not, only appends to the output. */
  lemma {:induction false} OperandKeepsPrefix(st: State, r: Resolved, value: nat, linenum: nat)
    ensures var o := EncodeOperand(st, r, value, linenum).st;
      |o.out| >= |st.out| && o.out[..|st.out|] == st.out
  {
  }

  /**
   * The undocumented-instruction message is attached to the row's flag as
   * written: it is the first new message exactly when the row is flagged
   * documented and the option is present and False. It therefore fires in
   * a fresh run, where the option starts False, and never once an option line
   * has set it.
   */
  lemma {:induction false} UndocumentedWarning(table: InstructionTable, st: State, r: Resolved, linenum: nat)
    requires r.mnemonic in table && ModeIndex(table[r.mnemonic], r.mode).Some?
    ensures var entry := table[r.mnemonic][ModeIndex(table[r.mnemonic], r.mode).value];
      var o := Encode(table, st, r, linenum);
      |o.st.warnings| >= |st.warnings| && o.st.warnings[..|st.warnings|] == st.warnings
      && ((|o.st.warnings| > |st.warnings| && o.st.warnings[|st.warnings|] == Undocumented(linenum, r.mnemonic, r.mode))
          <==> entry.documented && NoUndocumentedWarning in st.options && !st.options[NoUndocumentedWarning])
    ensures st.options == InitialOptions ==>
      WarnsUndocumented(table[r.mnemonic][ModeIndex(table[r.mnemonic], r.mode).value], st.options)
      == table[r.mnemonic][ModeIndex(table[r.mnemonic], r.mode).value].documented
    ensures NoUndocumentedWarning in st.options && st.options[NoUndocumentedWarning] ==>
      !WarnsUndocumented(table[r.mnemonic][ModeIndex(table[r.mnemonic], r.mode).value], st.options)
  {
    var entries := table[r.mnemonic];
    var entry := entries[ModeIndex(entries, r.mode).value];
    var st1 := WriteOpcode(st, entry, r, linenum);
    var o := Encode(table, st, r, linenum).st;
    assert o.warnings == st1.warnings || o.warnings == st1.warnings + [BranchOutOfRange(linenum)] by {
      if r.arg != "" && ValueLiteral.LiteralValue(r.arg).Ok? {
        var value := ValueLiteral.LiteralValue(r.arg).value;
        assert o == EncodeOperand(st1, r, value, linenum).st;
        OperandWarnings(st1, r, value, linenum);
      }
    }
    if WarnsUndocumented(entry, st.options) {
      assert st1.warnings == st.warnings + [Undocumented(linenum, r.mnemonic, r.mode)];
      assert o.warnings[|st.warnings|] == Undocumented(linenum, r.mnemonic, r.mode);
    } else {
      assert st1.warnings == st.warnings;
    }
  }

  /** The operand step adds at most the branch message. */
  lemma {:induction false} OperandWarnings(st: State, r: Resolved, value: nat, linenum: nat)
    ensures var o := EncodeOperand(st, r, value, linenum).st;
      o.warnings == st.warnings || o.warnings == st.warnings + [BranchOutOfRange(linenum)]
  {
  }

  /**
   * The operand bytes after the opcode: a branch writes one two's-complement
   * byte of the displacement from the next instruction and fails when it
   * does not fit; otherwise width 0 writes nothing, width 8 one byte and any
   * other width two little-endian bytes, each failing when the value does
   * not fit. When it goes through, the program counter advances by the
   * mode's size.
   */
  lemma {:induction false} EncodeOperandBytes(st: State, r: Resolved, value: nat, linenum: nat)
    ensures var o := EncodeOperand(st, r, value, linenum);
      var offset := value - (st.position + 2);
      (o.Aborted? <==>
        if IsBranch(r) then !(-128 <= offset < 128)
        else r.argType != 0 && value >= (if r.argType == 8 then 256 else 0x1_0000))
      && (o.Aborted? ==> o.err == OperandOutOfRange(linenum))
      && (o.Running? ==> o.st.position == st.position + SizeInBytes(r.mode))
      && (o.Running? && IsBranch(r) ==>
            |o.st.out| == |st.out| + 1 && o.st.out[..|st.out|] == st.out
            && Signed(o.st.out[|st.out|]) == offset)
      && (o.Running? && !IsBranch(r) && r.argType == 0 ==> o.st.out == st.out)
      && (o.Running? && !IsBranch(r) && r.argType == 8 ==> o.st.out == st.out + [value])
      && (o.Running? && !IsBranch(r) && r.argType != 0 && r.argType != 8 ==>
            |o.st.out| == |st.out| + 2 && o.st.out[..|st.out|] == st.out
            && o.st.out[|st.out|] as int + 256 * (o.st.out[|st.out| + 1] as int) == value)
  {
    var offset := value - (st.position + 2);
    if IsBranch(r) && -128 <= offset < 128 {
      SignedByteRoundTrip(offset);
    } else if !IsBranch(r) && r.argType != 0 && r.argType != 8 && value < 0x1_0000 {
      LittleEndian16RoundTrip(value);
    }
  }

  /**
   * The branch range message tests the target, not the displacement: it
   * fires exactly when the displacement is below -127 or the target above
   * 128, is never fatal by itself, and every displacement that cannot be
   * written has fired it first.
   */
  lemma {:induction false} BranchMessage(st: State, r: Resolved, value: nat, linenum: nat)
    requires IsBranch(r)
    ensures var o := EncodeOperand(st, r, value, linenum);
      var offset := value - (st.position + 2);
      |o.st.warnings| >= |st.warnings| && o.st.warnings[..|st.warnings|] == st.warnings
      && (o.st.warnings == st.warnings + [BranchOutOfRange(linenum)] <==> offset < -127 || value > 128)
      && (o.st.warnings == st.warnings <==> !(offset < -127 || value > 128))
      && (o.Aborted? ==> o.st.warnings == st.warnings + [BranchOutOfRange(linenum)])
  {
  }

  /** A target of 129 from address 100 is a displacement of 27, which fits, yet the message fires. */
  lemma {:induction false} BranchMessageOnReachableTarget(st: State, r: Resolved, linenum: nat)
    requires IsBranch(r) && st.position == 100
    ensures EncodeOperand(st, r, 129, linenum).Running?
    ensures EncodeOperand(st, r, 129, linenum).st.warnings == st.warnings + [BranchOutOfRange(linenum)]
  {
  }

  /**
   * A branch with an operand advances the program counter by three (the
   * absolute mode's size) although it writes only the opcode and one
   * displacement byte.
   */
  lemma {:induction false} BranchWritesTwoAdvancesThree(table: InstructionTable, st: State, r: Resolved, linenum: nat)
    requires IsBranch(r) && r.arg != "" && Encode(table, st, r, linenum).Running?
    ensures var o := Encode(table, st, r, linenum).st;
      |o.out| == |st.out| + 2 && o.position == st.position + 3
  {
    var entries := table[r.mnemonic];
    var i := ModeIndex(entries, r.mode).value;
    var entry := entries[i];
    var st1 := WriteOpcode(st, entry, r, linenum);
    assert ValueLiteral.LiteralValue(r.arg).Ok?;
    var value := ValueLiteral.LiteralValue(r.arg).value;
    assert Encode(table, st, r, linenum) == EncodeOperand(st1, r, value, linenum);
    assert |st1.out| == |st.out| + 1 && st1.position == st.position;
    EncodeOperandBytes(st1, r, value, linenum);
    assert SizeInBytes(r.mode) == 3;
  }

  /**
   * An operand of bare decimal digits has no base: once the opcode is
   * written the line fails, as Python's `int(text, base=None)` does.
   */
  lemma {:induction false} DecimalOperandFails(table: InstructionTable, st: State, r: Resolved, linenum: nat)
    requires r.mnemonic in table && ModeIndex(table[r.mnemonic], r.mode).Some?
    requires |r.arg| > 0 && forall k | 0 <= k < |r.arg| :: IsDigit(r.arg[k])
    ensures var o := Encode(table, st, r, linenum);
      o.Aborted? && o.err == MissingBase(linenum)
      && o.st.out == st.out + [table[r.mnemonic][ModeIndex(table[r.mnemonic], r.mode).value].opcode]
  {
    ValueLiteral.BareDigitsFail(r.arg);
  }

  // ---------------------------------------------------------------------------
  // Instruction lines from source text
  // ---------------------------------------------------------------------------

  /** A jump rewritten by the label loop keeps the shape of a lexed line. */
  lemma {:induction false} ResolveJumpShape(r: Resolved, labels: seq<(string, nat)>, linenum: nat)
    requires ShapeOf(r)
    ensures ResolveJump(r, labels, linenum).Ok? ==>
      ShapeOf(ResolveJump(r, labels, linenum).value)
      && (ResolveJump(r, labels, linenum).value.mode == r.mode || ResolveJump(r, labels, linenum).value.mode == Absolute)
    decreases |labels|
  {
    if labels != [] {
      if r.arg == labels[0].0 {
        var literal := "$" + ValueLiteral.Format04X(labels[0].1);
        FakedJumpIsAbsolute(r.mnemonic, literal, linenum);
        var r' := Resolved(r.mnemonic, Absolute, literal, 16);
        assert ShapeOf(r');
        ResolveJumpShape(r', labels[1..], linenum);
      } else {
        ResolveJumpShape(r, labels[1..], linenum);
      }
    }
  }

  /** What `InstructionLineSize` states, for the resolved tuple. */
  lemma {:induction false} EncodeSize(table: InstructionTable, st: State, r: Resolved, linenum: nat)
    requires ShapeOf(r) && r.mode != AssemblerOption && r.mode != Label
    requires Encode(table, st, r, linenum).Running?
    ensures var o := Encode(table, st, r, linenum).st;
      |o.out| > |st.out| && o.out[..|st.out|] == st.out
      && o.position == st.position + SizeInBytes(r.mode)
      && (IsBranch(r) ==> |o.out| == |st.out| + 2 && SizeInBytes(r.mode) == 3)
      && (!IsBranch(r) ==> |o.out| == |st.out| + SizeInBytes(r.mode))
  {
    assert r.mnemonic in table;
    var entries := table[r.mnemonic];
    var entry := entries[ModeIndex(entries, r.mode).value];
    var st1 := WriteOpcode(st, entry, r, linenum);
    var o := Encode(table, st, r, linenum).st;
    assert st1.out == st.out + [entry.opcode];
    if r.mode != JumpLabel {
      SizeIsOpcodePlusOperand(r.mode);
    }
    if r.arg == "" {
      assert o == st1.(position := st.position + SizeInBytes(r.mode));
    } else {
      var value := ValueLiteral.LiteralValue(r.arg).value;
      assert Encode(table, st, r, linenum) == EncodeOperand(st1, r, value, linenum);
      OperandSize(st1, r, value, linenum);
      assert o.out[..|st.out|] == st1.out[..|st.out|];
    }
  }

  /** The operand step appends the rest of the instruction after the opcode byte. */
  lemma {:induction false} OperandSize(st: State, r: Resolved, value: nat, linenum: nat)
    requires ShapeOf(r) && r.mode != AssemblerOption && r.mode != Label && r.arg != ""
    requires EncodeOperand(st, r, value, linenum).Running?
    ensures var o := EncodeOperand(st, r, value, linenum).st;
      |o.out| >= |st.out| && o.out[..|st.out|] == st.out
      && o.position == st.position + SizeInBytes(r.mode)
      && (IsBranch(r) ==> |o.out| == |st.out| + 1 && SizeInBytes(r.mode) == 3)
      && (!IsBranch(r) ==> |o.out| + 1 == |st.out| + SizeInBytes(r.mode))
  {
    EncodeOperandBytes(st, r, value, linenum);
    if r.mode != JumpLabel {
      SizeIsOpcodePlusOperand(r.mode);
    }
  }

  /**
   * An instruction line that goes through advances the program counter by
   * its mode's size. Every line but a branch writes exactly that many bytes;
   * a branch writes two for a size of three.
   */
  lemma {:induction false} InstructionLineSize(table: InstructionTable, st: State, line: string, linenum: nat)
    requires Represent(line, linenum).Ok?
    requires Represent(line, linenum).value.mode != AssemblerOption
    requires Represent(line, linenum).value.mode != Label
    requires Step(table, st, line, linenum).Running?
    ensures Instruction(st, Represent(line, linenum).value, linenum).Ok?
    ensures var r := Instruction(st, Represent(line, linenum).value, linenum).value;
      var o := Step(table, st, line, linenum).st;
      |o.out| > |st.out| && o.out[..|st.out|] == st.out
      && o.position == st.position + SizeInBytes(r.mode)
      && (IsBranch(r) ==> |o.out| == |st.out| + 2 && SizeInBytes(r.mode) == 3)
      && (!IsBranch(r) ==> |o.out| == |st.out| + SizeInBytes(r.mode))
  {
    var r := Represent(line, linenum).value;
    RepresentShape(line, linenum);
    if r.mode == JumpLabel {
      ResolveJumpShape(r, st.labels, linenum);
    }
    var r2 := Instruction(st, r, linenum).value;
    assert ShapeOf(r2) && r2.mode != AssemblerOption && r2.mode != Label;
    assert Step(table, st, line, linenum) == Encode(table, st, r2, linenum);
    EncodeSize(table, st, r2, linenum);
  }

  /** `$` and `w` hex digits convert, to a value below `16^w`. */
  lemma {:induction false} DollarHexValue(v: string, w: nat)
    requires w >= 1 && DollarHex(v, w)
    ensures ValueLiteral.LiteralValue(v).Ok? && ValueLiteral.LiteralValue(v).value < ValueLiteral.Pow(16, w)
  {
    assert ValueLiteral.FirstTwo(v)[0] == '$';
    assert ValueLiteral.EvaluateValueLiteral(v) == Some(16);
    assert ValueLiteral.StripValueLiteral(v) == v[1..];
    forall k | 0 <= k < |v[1..]| ensures ValueLiteral.DigitValue(v[1..][k]) < 16 {
      assert IsHexDigit(v[1..][k]);
    }
  }

  /**
   * The literal of a lexed line's operand slot either has no base (decimal
   * digits) or converts to a value that fits its width: below 256 in an
   * 8-bit slot, below 0x10000 in a 16-bit one.
   */
  lemma {:induction false} LiteralSlotFits(line: string, linenum: nat)
    requires Represent(line, linenum).Ok? && LiteralPosition(Represent(line, linenum).value.mode) != 0
    ensures |Represent(line, linenum).value.arg| > 0
    ensures var r := Represent(line, linenum).value;
      var v := ValueLiteral.LiteralValue(r.arg);
      (v.Err? ==> v.error == ValueLiteral.NoBase)
      && (v.Ok? && r.argType == 8 ==> v.value < 256)
      && (v.Ok? && r.argType != 8 ==> v.value < 0x1_0000)
  {
    var clean := CleanLine(line);
    var ts := Tokens(clean);
    var r := Represent(line, linenum).value;
    var p := LiteralPosition(r.mode);
    EvaluateLineExtracts(ts, linenum);
    WidthMatchesLiteralSlot(r.mode);
    GrammarsEndWithEof(r.mode);
    TokensShape(clean);
    CleanLineHasNoNewline(line);
    ScanUppercaseLiterals(clean, 0);
    assert p < |ts| - 1;
    assert ts[p] in Scan(clean, 0);
    LiteralTokenFits(ts[p]);
  }

  /** A literal token of an upper-cased line converts, if at all, to a value its width can hold. */
  lemma {:induction false} LiteralTokenFits(t: Token)
    requires WellFormedToken(t) && UppercaseLiteral16(t) && (t.kind == Literal8 || t.kind == Literal16)
    ensures |t.value| > 0
    ensures var v := ValueLiteral.LiteralValue(t.value);
      (v.Err? ==> v.error == ValueLiteral.NoBase)
      && (v.Ok? && t.kind == Literal8 ==> v.value < 256)
      && (v.Ok? && t.kind != Literal8 ==> v.value < 0x1_0000)
  {
    assert ValueLiteral.Pow(16, 2) == 256;
    ValueLiteral.PowSixteenFour();
    if t.kind == Literal8 {
      DollarHexValue(t.value, 2);
    } else if DollarHex(t.value, 4) {
      DollarHexValue(t.value, 4);
    } else {
      ValueLiteral.BareDigitsFail(t.value);
    }
  }

  /**
   * Only a branch can fail to write the operand of a line that is not a
   * jump to a label: the lexer's 8-bit literals are `$` and two hex digits
   * and its 16-bit ones `$` and four (or decimal digits, which fail earlier).
   */
  lemma {:induction false} LexedOperandsFit(table: InstructionTable, st: State, line: string, linenum: nat)
    requires Represent(line, linenum).Ok? && Represent(line, linenum).value.mode != JumpLabel
    ensures var o := Step(table, st, line, linenum);
      o.Aborted? && o.err.OperandOutOfRange? ==> IsBranch(Represent(line, linenum).value)
  {
    var r := Represent(line, linenum).value;
    RepresentShape(line, linenum);
    if r.mode != AssemblerOption && r.mode != Label && r.mnemonic in table
       && ModeIndex(table[r.mnemonic], r.mode).Some? && r.arg != "" {
      assert Step(table, st, line, linenum) == Encode(table, st, r, linenum);
      var entries := table[r.mnemonic];
      var entry := entries[ModeIndex(entries, r.mode).value];
      var st1 := WriteOpcode(st, entry, r, linenum);
      if ValueLiteral.LiteralValue(r.arg).Ok? {
        var value := ValueLiteral.LiteralValue(r.arg).value;
        assert Encode(table, st, r, linenum) == EncodeOperand(st1, r, value, linenum);
        EncodeOperandBytes(st1, r, value, linenum);
        if LiteralPosition(r.mode) != 0 {
          LiteralSlotFits(line, linenum);
        }
      }
    }
  }

  /**
   * A jump line fails for an out-of-range operand only when it was resolved
   * to a label and that label is a branch target, or lies at 0x10000 or
   * above (its `$` literal then has five or more hex digits); or when it was
   * not resolved and the table has a jump-label row. Conversely a jump or
   * other non-branch resolved to such a far label fails for its operand
   * whenever the table has an absolute row for the mnemonic.
   */
  lemma {:induction false} JumpOperandFits(table: InstructionTable, st: State, line: string, linenum: nat)
    requires Valid(st)
    requires Represent(line, linenum).Ok? && Represent(line, linenum).value.mode == JumpLabel
    ensures var r := Represent(line, linenum).value;
      var o := Step(table, st, line, linenum);
      o.Aborted? && o.err.OperandOutOfRange? ==>
        r.mnemonic in table &&
        match FirstLabel(st.labels, r.arg)
        case None => ModeIndex(table[r.mnemonic], JumpLabel).Some?
        case Some(offset) => IsMnemonic(r.mnemonic, Branches) || offset >= 0x1_0000
    ensures var r := Represent(line, linenum).value;
      var o := Step(table, st, line, linenum);
      var target := FirstLabel(st.labels, r.arg);
      target.Some? && target.value >= 0x1_0000 && !IsMnemonic(r.mnemonic, Branches)
      && r.mnemonic in table && ModeIndex(table[r.mnemonic], Absolute).Some? ==>
        o == Aborted(o.st, OperandOutOfRange(linenum))
  {
    var r := Represent(line, linenum).value;
    JumpLine(table, st, line, linenum);
    match FirstLabel(st.labels, r.arg)
    case None =>
    case Some(offset) =>
      var r2 := Resolved(r.mnemonic, Absolute, "$" + ValueLiteral.Format04X(offset), 16);
      assert Step(table, st, line, linenum) == Encode(table, st, r2, linenum);
      if r2.mnemonic in table && ModeIndex(table[r2.mnemonic], Absolute).Some? {
        var entries := table[r2.mnemonic];
        var st1 := WriteOpcode(st, entries[ModeIndex(entries, Absolute).value], r2, linenum);
        ResolvedJumpOperand(offset);
        assert r2.arg != "";
        assert Encode(table, st, r2, linenum) == EncodeOperand(st1, r2, offset, linenum);
        EncodeOperandBytes(st1, r2, offset, linenum);
      }
  }

  // ---------------------------------------------------------------------------
  // The loop itself
  // ---------------------------------------------------------------------------

  /** One more line of a run that is still going. */
  lemma {:induction false} ExecNext(table: InstructionTable, lines: seq<string>, n: nat)
    requires n < |lines| && Exec(table, lines, n).Running?
    ensures Exec(table, lines, n + 1) == Step(table, Exec(table, lines, n).st, lines[n], n + 1)
  {
  }

  /** A run that stopped at line `n` ends there. */
  lemma {:induction false} ExecAbortSticks(table: InstructionTable, lines: seq<string>, n: nat)
    requires n <= |lines| && Exec(table, lines, n).Aborted?
    ensures Exec(table, lines, |lines|) == Exec(table, lines, n)
  {
    LoopAbortSticks((st: State, line: string, k: nat) => Step(table, st, line, k), lines, n, |lines|);
  }

  /** An outcome read off the loop's variables and the error it stopped with, if any. */
  function OutcomeOf(st: State, err: Option<AsmError>): Outcome {
    if err.Some? then Aborted(st, err.value) else Running(st)
  }

  /**
   * The assembly loop, with the program's module-level state as fields:
   * the program counter, the labels, the option dictionary, the bytes
   * written to the output file and the messages printed.
   */
  class Assembler {
    const table: InstructionTable
    var position: nat
    var labels: seq<(string, nat)>
    var options: map<string, bool>
    var out: seq<byte>
    var warnings: seq<Warning>

    function Snapshot(): State
      reads this
    {
      State(position, labels, options, out, warnings)
    }

    /** The state before the first line. */
    constructor(table: InstructionTable)
      ensures this.table == table && Snapshot() == Start
    {
      this.table := table;
      position := 0;
      labels := [];
      options := InitialOptions;
      out := [];
      warnings := [];
    }

    /**
     * The label loop of a jump line: it runs over every label, without
     * `break`, and re-evaluates the faked tokens on every name that equals
     * the current operand.
     */
    method ResolveLabels(r0: Resolved, linenum: nat) returns (res: Result<Resolved, AsmError>)
      ensures res == ResolveJump(r0, labels, linenum)
    {
      var r := r0;
      var k := 0;
      while k < |labels|
        invariant 0 <= k <= |labels|
        invariant ResolveJump(r0, labels, linenum) == ResolveJump(r, labels[k..], linenum)
      {
        assert labels[k..][0] == labels[k] && labels[k..][1..] == labels[k + 1..];
        if r.arg == labels[k].0 {
          var tokens := FakedTokens(r.mnemonic, labels[k].1);
          var again := EvaluateLine(tokens, linenum);
          if again.Err? {
            return Err(again.error);
          }
          r := again.value;
        }
        k := k + 1;
      }
      res := Ok(r);
    }

    /** The table loop: the first row of the mode, or None for its `else` branch. */
    static method FindModeIndex(entries: seq<TableEntry>, mode: AddrMode) returns (index: Option<nat>)
      ensures index == ModeIndex(entries, mode)
    {
      var i := 0;
      while i < |entries|
        invariant 0 <= i <= |entries|
        invariant ModeIndexFrom(entries, mode, i) == ModeIndex(entries, mode)
      {
        if entries[i].mode == mode {
          return Some(i);
        }
        i := i + 1;
      }
      index := None;
    }

    /** The body of the loop for the line numbered `linenum`. */
    method AssembleLine(line: string, linenum: nat) returns (err: Option<AsmError>)
      modifies this
      ensures OutcomeOf(Snapshot(), err) == Step(table, old(Snapshot()), line, linenum)
    {
      var tokens := Tokenize(CleanLine(line));
      var representation := EvaluateLine(tokens, linenum);
      if representation.Err? {
        return Some(representation.error);
      }
      var r := representation.value;
      if r.mode == AssemblerOption {
        options := options[r.arg := true];
        return None;
      }
      if r.mode == Label {
        labels := labels + [(r.arg, position)];
        return None;
      }
      if r.mode == JumpLabel {
        var resolved := ResolveLabels(r, linenum);
        if resolved.Err? {
          return Some(resolved.error);
        }
        r := resolved.value;
      }
      assert Step(table, old(Snapshot()), line, linenum) == Encode(table, old(Snapshot()), r, linenum);
      err := EncodeInstruction(r, linenum);
    }

    /** Table lookup, opcode and operand of an instruction line. */
    method EncodeInstruction(r: Resolved, linenum: nat) returns (err: Option<AsmError>)
      modifies this
      ensures OutcomeOf(Snapshot(), err) == Encode(table, old(Snapshot()), r, linenum)
    {
      if r.mnemonic !in table {
        return Some(UnknownMnemonic(linenum, r.mnemonic));
      }
      var entries := table[r.mnemonic];
      var index := FindModeIndex(entries, r.mode);
      if index.None? {
        return Some(IllegalAddressingMode(linenum, r.mnemonic, r.mode));
      }
      var entry := entries[index.value];
      if entry.documented && OptionGet(options, NoUndocumentedWarning, true) == false {
        warnings := warnings + [Undocumented(linenum, r.mnemonic, r.mode)];
      }
      out := out + [entry.opcode];
      assert Snapshot() == WriteOpcode(old(Snapshot()), entry, r, linenum);
      if r.arg == "" {
        position := position + SizeInBytes(r.mode);
        return None;
      }
      var converted := ValueLiteral.LiteralValue(r.arg);
      if converted.Err? {
        return Some(if converted.error.NoBase? then MissingBase(linenum) else InvalidDigits(linenum));
      }
      err := EncodeValue(r, converted.value, linenum);
    }

    /** The operand bytes and the new program counter, once the opcode is written. */
    method EncodeValue(r: Resolved, value: nat, linenum: nat) returns (err: Option<AsmError>)
      modifies this
      ensures OutcomeOf(Snapshot(), err) == EncodeOperand(old(Snapshot()), r, value, linenum)
    {
      var next := position + SizeInBytes(r.mode);
      if r.mode == Absolute && IsMnemonic(r.mnemonic, Branches) {
        var offset := value - (position + 2);
        if offset < -127 || value > 128 {
          warnings := warnings + [BranchOutOfRange(linenum)];
        }
        if !(-128 <= offset < 128) {
          return Some(OperandOutOfRange(linenum));
        }
        out := out + [SignedByte(offset)];
        position := next;
        return None;
      }
      if r.argType != 0 {
        if r.argType == 8 {
          if value >= 256 {
            return Some(OperandOutOfRange(linenum));
          }
          out := out + [value];
        } else {
          if value >= 0x1_0000 {
            return Some(OperandOutOfRange(linenum));
          }
          out := out + LittleEndian16(value);
        }
      }
      position := next;
      err := None;
    }

    /**
     * The loop over the preprocessed lines, numbered from 1, stopping at the
     * first fatal line.
     */
    method Assemble(lines: seq<string>) returns (err: Option<AsmError>)
      requires Snapshot() == Start
      modifies this
      ensures OutcomeOf(Snapshot(), err) == Exec(table, lines, |lines|)
    {
      var i := 0;
      err := None;
      while i < |lines| && err.None?
        invariant 0 <= i <= |lines|
        invariant OutcomeOf(Snapshot(), err) == Exec(table, lines, i)
      {
        err := AssembleNext(lines, i);
        i := i + 1;
      }
      if err.Some? {
        ExecAbortSticks(table, lines, i);
      }
    }

    /** One pass of the loop body: the line at index `i`, numbered `i + 1`. */
    method AssembleNext(lines: seq<string>, i: nat) returns (err: Option<AsmError>)
      requires i < |lines| && OutcomeOf(Snapshot(), None) == Exec(table, lines, i)
      modifies this
      ensures OutcomeOf(Snapshot(), err) == Exec(table, lines, i + 1)
    {
      ExecNext(table, lines, i);
      err := AssembleLine(lines[i], i + 1);
    }
  }

  /**
   * A whole run on the text of the input file: the bytes in the output file
   * and the error the program stopped with, if any. The bytes are those of
   * the lines before the fatal one, plus whatever that line wrote before it
   * failed.
   */
  method AssembleProgram(table: InstructionTable, buffer: string) returns (out: seq<byte>, err: Option<AsmError>)
    ensures var lines := Preprocess(buffer);
      && out == Exec(table, lines, |lines|).st.out
      && (err.Some? <==> Exec(table, lines, |lines|).Aborted?)
      && (err.Some? ==> err.value == Exec(table, lines, |lines|).err)
  {
    var lines := Preprocess(buffer);
    var assembler := new Assembler(table);
    err := assembler.Assemble(lines);
    out := assembler.out;
  }
}
