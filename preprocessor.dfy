/**
 * The text rewrites applied to the whole input file before the assembly
 * loop: a label and the instruction after it are put on separate lines,
 * a jump or branch mnemonic gets a `, ` before its target, comments are
 * removed, and the text is cut into its non-blank lines.
 *
 * Each `re.sub` is written out as the left-to-right scan the regular
 * expression engine performs: at each position the pattern either matches
 * (its replacement is emitted and the scan resumes after the match, in the
 * original text) or it does not (the character is kept and the scan moves
 * on by one).
 */
module Preprocessor {
  import opened Wrappers
  import opened Chars

  // ---------------------------------------------------------------------------
  // Characters removed or ignored when comparing texts
  // ---------------------------------------------------------------------------

  /** Whitespace or a comma: what the jump rewrite may change. */
  predicate IsSpaceOrComma(c: char) { IsSpace(c) || c == ',' }

  /** `s` with every character on which `drop` holds removed. */
  function Without(s: string, drop: char -> bool): string {
    if s == [] then [] else (if drop(s[0]) then [] else [s[0]]) + Without(s[1..], drop)
  }

  lemma {:induction false} WithoutAppend(a: string, b: string, drop: char -> bool)
    ensures Without(a + b, drop) == Without(a, drop) + Without(b, drop)
    decreases |a|
  {
    if a != [] {
      assert (a + b)[0] == a[0] && (a + b)[1..] == a[1..] + b;
      WithoutAppend(a[1..], b, drop);
    } else {
      assert a + b == b;
    }
  }

  /** Removing every character of a text made only of dropped characters leaves nothing. */
  lemma {:induction false} WithoutAllDropped(s: string, drop: char -> bool)
    requires forall k | 0 <= k < |s| :: drop(s[k])
    ensures Without(s, drop) == []
    decreases |s|
  {
    if s != [] {
      assert forall k | 0 <= k < |s[1..]| :: drop(s[1..][k]) by {
        forall k | 0 <= k < |s[1..]| ensures drop(s[1..][k]) {
          assert s[1..][k] == s[k + 1];
        }
      }
      WithoutAllDropped(s[1..], drop);
    }
  }

  /**
   * Replacing a middle part made only of dropped characters by another such
   * part changes nothing once characters are dropped.
   */
  lemma {:induction false} WithoutReplace(a: string, x: string, y: string, b: string, drop: char -> bool)
    requires Without(x, drop) == [] && Without(y, drop) == []
    ensures Without(a + x + b, drop) == Without(a + y + b, drop)
  {
    WithoutAppend(a + x, b, drop);
    WithoutAppend(a, x, drop);
    WithoutAppend(a + y, b, drop);
    WithoutAppend(a, y, drop);
  }

  /** Two given characters at positions `i` and `i + 1`. */
  predicate Pair(s: string, i: nat, a: char, b: char) {
    i + 1 < |s| && s[i] == a && s[i + 1] == b
  }

  // ---------------------------------------------------------------------------
  // (\w+:)(\s*[A-Za-z])  ->  \1\n\2
  // ---------------------------------------------------------------------------

  /**
   * Where the label pattern matches at position `i`: the index of the colon
   * and the index of the letter that ends the match. The word run is greedy
   * and a shorter run would be followed by a word character rather than a
   * colon, so only the whole run can match; likewise the whitespace run.
   */
  function LabelSplitAt(s: string, i: nat): (r: Option<(nat, nat)>)
    requires i <= |s|
    ensures r.Some? ==> i < r.value.0 < r.value.1 < |s|
  {
    var colon := i + Span(s, i, WordChars);
    if colon > i && At(s, colon, ':') then
      var letter := colon + 1 + Span(s, colon + 1, Spaces);
      if letter < |s| && IsLetter(s[letter]) then Some((colon, letter)) else None
    else None
  }

  /**
   * One step of the label rewrite at position `i`: the replacement text and
   * the position where the scan resumes.
   */
  function LabelStep(s: string, i: nat): (r: (string, nat))
    requires i < |s|
    ensures i < r.1 <= |s|
  {
    match LabelSplitAt(s, i)
    case Some((colon, letter)) => (s[i..colon + 1] + "\n" + s[colon + 1..letter + 1], letter + 1)
    case None => ([s[i]], i + 1)
  }

  /** The label rewrite applied to `s[i..]`. */
  function SplitLabels(s: string, i: nat): string
    requires i <= |s|
    decreases |s| - i
  {
    if i == |s| then [] else LabelStep(s, i).0 + SplitLabels(s, LabelStep(s, i).1)
  }

  /** Joining pieces that agree once `drop` characters are removed gives texts that agree too. */
  lemma {:induction false} WithoutJoin(piece: string, rest: string, a: string, b: string, drop: char -> bool)
    requires Without(piece, drop) == Without(a, drop) && Without(rest, drop) == Without(b, drop)
    ensures Without(piece + rest, drop) == Without(a + b, drop)
  {
    WithoutAppend(piece, rest, drop);
    WithoutAppend(a, b, drop);
  }

  /** A step of a scan that keeps the text, once `drop` characters are removed, keeps the whole scan. */
  lemma {:induction false} WithoutStep(s: string, i: nat, next: nat, piece: string, rest: string, drop: char -> bool)
    requires i <= next <= |s|
    requires Without(piece, drop) == Without(s[i..next], drop)
    requires Without(rest, drop) == Without(s[next..], drop)
    ensures Without(piece + rest, drop) == Without(s[i..], drop)
  {
    WithoutJoin(piece, rest, s[i..next], s[next..], drop);
    assert s[i..next] + s[next..] == s[i..];
  }

  /** Putting a line break between the colon and the text after it changes nothing but line breaks. */
  lemma {:induction false} LabelPieceNewline(s: string, i: nat, colon: nat, letter: nat)
    requires i <= colon < letter < |s|
    ensures Without(s[i..colon + 1] + "\n" + s[colon + 1..letter + 1], IsNewline) == Without(s[i..letter + 1], IsNewline)
  {
    var a, b := s[i..colon + 1], s[colon + 1..letter + 1];
    WithoutAllDropped("\n", IsNewline);
    WithoutAllDropped([], IsNewline);
    WithoutReplace(a, "\n", [], b, IsNewline);
    assert a + [] + b == s[i..letter + 1];
  }

  /** One label step only inserts a line break. */
  lemma {:induction false} LabelStepInsertsOnlyNewline(s: string, i: nat)
    requires i < |s|
    ensures Without(LabelStep(s, i).0, IsNewline) == Without(s[i..LabelStep(s, i).1], IsNewline)
  {
    match LabelSplitAt(s, i)
    case Some((colon, letter)) => LabelPieceNewline(s, i, colon, letter);
    case None =>
  }

  /** The label rewrite only inserts line breaks: without them the text is unchanged. */
  lemma {:induction false} SplitLabelsInsertsOnlyNewlines(s: string, i: nat)
    requires i <= |s|
    ensures Without(SplitLabels(s, i), IsNewline) == Without(s[i..], IsNewline)
    decreases |s| - i
  {
    if i < |s| {
      var (piece, next) := LabelStep(s, i);
      SplitLabelsInsertsOnlyNewlines(s, next);
      LabelStepInsertsOnlyNewline(s, i);
      WithoutStep(s, i, next, piece, SplitLabels(s, next), IsNewline);
    }
  }

  /** A text without a colon passes the label rewrite unchanged. */
  lemma {:induction false} SplitLabelsNeedsColon(s: string, i: nat)
    requires i <= |s|
    requires forall k | 0 <= k < |s| :: s[k] != ':'
    ensures SplitLabels(s, i) == s[i..]
    decreases |s| - i
  {
    if i < |s| {
      assert LabelSplitAt(s, i).None?;
      SplitLabelsNeedsColon(s, i + 1);
    }
  }

  /** A word, a colon, whitespace and a letter. */
  predicate LabelShape(w: string, sp: string, a: char) {
    |w| > 0 && (forall k | 0 <= k < |w| :: IsWordChar(w[k]))
    && (forall k | 0 <= k < |sp| :: IsSpace(sp[k]))
    && IsLetter(a)
  }

  /** The characters of a text that starts with a word, a colon, whitespace and a letter. */
  lemma {:induction false} LabelShapeChars(s: string, w: string, sp: string, a: char)
    requires LabelShape(w, sp, a)
    requires |w| + |sp| + 2 <= |s| && s[..|w| + |sp| + 2] == w + ":" + sp + [a]
    ensures forall k | 0 <= k < |w| :: InClass(WordChars, s[k])
    ensures s[|w|] == ':'
    ensures forall k | |w| + 1 <= k < |w| + 1 + |sp| :: InClass(Spaces, s[k])
    ensures IsLetter(s[|w| + 1 + |sp|])
  {
    var p := s[..|w| + |sp| + 2];
    var q := w + ":";
    assert p == q + (sp + [a]);
    forall k | 0 <= k < |w| ensures InClass(WordChars, s[k]) {
      assert s[k] == p[k] == q[k] == w[k];
    }
    assert s[|w|] == p[|w|] == q[|w|];
    forall k | |w| + 1 <= k < |w| + 1 + |sp| ensures InClass(Spaces, s[k]) {
      assert s[k] == p[k] == (sp + [a])[k - |q|] == sp[k - |q|];
    }
    assert s[|w| + 1 + |sp|] == p[|q| + |sp|] == (sp + [a])[|sp|];
  }

  /** The label pattern matches a word, a colon, whitespace and a letter at the start, all of it. */
  lemma {:induction false} LabelSplitAtShape(s: string, w: string, sp: string, a: char)
    requires LabelShape(w, sp, a)
    requires |w| + |sp| + 2 <= |s| && s[..|w| + |sp| + 2] == w + ":" + sp + [a]
    ensures LabelSplitAt(s, 0) == Some((|w|, |w| + 1 + |sp|))
  {
    LabelShapeChars(s, w, sp, a);
    SpanOfRun(s, 0, |w|, WordChars);
    SpanOfRun(s, |w| + 1, |sp|, Spaces);
  }

  /** The two pieces of a text that starts with a word, a colon, whitespace and a letter. */
  lemma {:induction false} LabelShapePieces(s: string, w: string, sp: string, a: char)
    requires |w| + |sp| + 2 <= |s| && s[..|w| + |sp| + 2] == w + ":" + sp + [a]
    ensures s[0..|w| + 1] == w + ":" && s[|w| + 1..|w| + |sp| + 2] == sp + [a]
  {
    var p := s[..|w| + |sp| + 2];
    assert s[0..|w| + 1] == p[0..|w| + 1] == w + ":";
    assert s[|w| + 1..|w| + |sp| + 2] == p[|w| + 1..|w| + |sp| + 2] == sp + [a];
  }

  /** Regrouping the pieces of a split label. */
  lemma {:induction false} LabelPieces(x: string, y: string, w: string, sp: string, a: char, rest: string)
    requires x == w + ":" && y == sp + [a]
    ensures x + "\n" + y + rest == w + ":\n" + sp + [a] + rest
  {
    assert x + "\n" == w + ":\n";
  }

  /**
   * A text that starts with a word, a colon, whitespace and a letter: the
   * rewrite puts a line break right after the colon, keeps the whitespace
   * and the letter, and goes on after the letter.
   */
  lemma {:induction false} SplitLabelsSplits(s: string, w: string, sp: string, a: char)
    requires LabelShape(w, sp, a)
    requires |w| + |sp| + 2 <= |s| && s[..|w| + |sp| + 2] == w + ":" + sp + [a]
    ensures SplitLabels(s, 0) == w + ":\n" + sp + [a] + SplitLabels(s, |w| + |sp| + 2)
  {
    var colon, next := |w|, |w| + |sp| + 2;
    LabelSplitAtShape(s, w, sp, a);
    LabelShapePieces(s, w, sp, a);
    SplitLabelsAtMatch(s, colon, next);
    LabelPieces(s[0..colon + 1], s[colon + 1..next], w, sp, a, SplitLabels(s, next));
  }

  /**
   * Where the label pattern matches at the start, up to the letter before
   * `next`, the rewrite emits its replacement and goes on at `next`.
   */
  lemma {:induction false} SplitLabelsAtMatch(s: string, colon: nat, next: nat)
    requires next > 0 && LabelSplitAt(s, 0) == Some((colon, next - 1))
    ensures SplitLabels(s, 0) == s[0..colon + 1] + "\n" + s[colon + 1..next] + SplitLabels(s, next)
  {
    var piece := s[0..colon + 1] + "\n" + s[colon + 1..next];
    assert LabelStep(s, 0) == (piece, next);
    SplitLabelsStep(s, 0);
  }

  /** One step of the label scan. */
  lemma {:induction false} SplitLabelsStep(s: string, i: nat)
    requires i < |s|
    ensures SplitLabels(s, i) == LabelStep(s, i).0 + SplitLabels(s, LabelStep(s, i).1)
  {
  }

  /** The label pattern matches `loop: D` at the start of `loop: DEX`. */
  lemma {:induction false} LabelSplitExample()
    ensures LabelSplitAt("loop: DEX", 0) == Some((4, 6))
  {
    var s := "loop: DEX";
    assert Span(s, 0, WordChars) == 4;
    assert Span(s, 5, Spaces) == 1;
  }

  /** A label and the instruction after it on one line end up on two lines. */
  lemma {:induction false} SplitLabelsExample()
    ensures SplitLabels("loop: DEX", 0) == "loop:\n D" + "EX"
  {
    var s := "loop: DEX";
    LabelSplitExample();
    assert Span(s, 7, WordChars) == 2;
    assert LabelSplitAt(s, 7).None?;
    assert Span(s, 8, WordChars) == 1;
    assert LabelSplitAt(s, 8).None?;
    assert SplitLabels(s, 7) == "EX";
  }

  // ---------------------------------------------------------------------------
  // \b(JMP|JSR|BCC|BCS|BEQ|BMI|BNE|BPL|BVC|BVS)\b\s*([A-Za-z0-9_]+)  ->  \1, \2
  // ---------------------------------------------------------------------------

  /** The mnemonics that may take a label: the two jumps and the eight branches (upper case only). */
  const JumpMnemonics: set<string> := {"JMP", "JSR", "BCC", "BCS", "BEQ", "BMI", "BNE", "BPL", "BVC", "BVS"}

  /** One of the jump mnemonics starts at position `i`. */
  predicate JumpMnemonicAt(s: string, i: nat) {
    i + 3 <= |s| && s[i..i + 3] in JumpMnemonics
  }

  /**
   * Where the jump pattern matches at position `i`: the start and end of
   * the target word. The mnemonic must stand as a whole word, and a target
   * word must follow after optional whitespace.
   */
  function JumpTargetAt(s: string, i: nat): (r: Option<(nat, nat)>)
    requires i <= |s|
    ensures r.Some? ==> i + 3 <= r.value.0 < r.value.1 <= |s|
  {
    if JumpMnemonicAt(s, i) && WordBoundary(s, i) && WordBoundary(s, i + 3) then
      var target := i + 3 + Span(s, i + 3, Spaces);
      if target < |s| && IsWordChar(s[target]) then Some((target, target + Span(s, target, WordChars)))
      else None
    else None
  }

  /**
   * One step of the jump rewrite at position `i`: the replacement text and
   * the position where the scan resumes.
   */
  function JumpStep(s: string, i: nat): (r: (string, nat))
    requires i < |s|
    ensures i < r.1 <= |s|
  {
    match JumpTargetAt(s, i)
    case Some((target, end)) => (s[i..i + 3] + ", " + s[target..end], end)
    case None => ([s[i]], i + 1)
  }

  /** The jump rewrite applied to `s[i..]`. */
  function SeparateJumps(s: string, i: nat): string
    requires i <= |s|
    decreases |s| - i
  {
    if i == |s| then [] else JumpStep(s, i).0 + SeparateJumps(s, JumpStep(s, i).1)
  }

  /** Replacing the whitespace between a mnemonic and its target by `, ` changes only spacing. */
  lemma {:induction false} JumpPieceSpacing(s: string, i: nat, target: nat, end: nat)
    requires i + 3 <= target <= end <= |s|
    requires forall k | i + 3 <= k < target :: IsSpace(s[k])
    ensures Without(s[i..i + 3] + ", " + s[target..end], IsSpaceOrComma) == Without(s[i..end], IsSpaceOrComma)
  {
    var m, gap, w := s[i..i + 3], s[i + 3..target], s[target..end];
    assert forall k | 0 <= k < |gap| :: IsSpaceOrComma(gap[k]) by {
      forall k | 0 <= k < |gap| ensures IsSpaceOrComma(gap[k]) {
        assert gap[k] == s[i + 3 + k];
      }
    }
    WithoutAllDropped(gap, IsSpaceOrComma);
    WithoutAllDropped(", ", IsSpaceOrComma);
    WithoutReplace(m, ", ", gap, w, IsSpaceOrComma);
    assert m + gap + w == s[i..end];
  }

  /** One jump step only replaces whitespace by `, `. */
  lemma {:induction false} JumpStepChangesOnlySpacing(s: string, i: nat)
    requires i < |s|
    ensures Without(JumpStep(s, i).0, IsSpaceOrComma) == Without(s[i..JumpStep(s, i).1], IsSpaceOrComma)
  {
    match JumpTargetAt(s, i)
    case Some((target, end)) =>
      SpanInClass(s, i + 3, Spaces);
      JumpPieceSpacing(s, i, target, end);
    case None =>
  }

  /**
   * The jump rewrite only replaces the whitespace between a mnemonic and its
   * target by `, `: ignoring whitespace and commas, the text is unchanged.
   */
  lemma {:induction false} SeparateJumpsChangesOnlySpacing(s: string, i: nat)
    requires i <= |s|
    ensures Without(SeparateJumps(s, i), IsSpaceOrComma) == Without(s[i..], IsSpaceOrComma)
    decreases |s| - i
  {
    if i < |s| {
      var (piece, next) := JumpStep(s, i);
      SeparateJumpsChangesOnlySpacing(s, next);
      JumpStepChangesOnlySpacing(s, i);
      WithoutStep(s, i, next, piece, SeparateJumps(s, next), IsSpaceOrComma);
    }
  }

  /** A text in which no upper-case jump mnemonic appears passes the jump rewrite unchanged. */
  lemma {:induction false} SeparateJumpsNeedsMnemonic(s: string, i: nat)
    requires i <= |s|
    requires forall k | i <= k <= |s| :: !JumpMnemonicAt(s, k)
    ensures SeparateJumps(s, i) == s[i..]
    decreases |s| - i
  {
    if i < |s| {
      SeparateJumpsNeedsMnemonic(s, i + 1);
      assert s[i..] == [s[i]] + s[i + 1..];
    }
  }

  /** The jump mnemonics are three word characters long. */
  lemma {:induction false} JumpMnemonicIsWord(m: string)
    requires m in JumpMnemonics
    ensures |m| == 3 && forall k | 0 <= k < 3 :: IsWordChar(m[k])
  {
  }

  /** A jump mnemonic, whitespace and a word. */
  predicate JumpShape(m: string, sp: string, v: string) {
    m in JumpMnemonics
    && |sp| > 0 && (forall k | 0 <= k < |sp| :: IsSpace(sp[k]))
    && |v| > 0 && (forall k | 0 <= k < |v| :: IsWordChar(v[k]))
  }

  /** The characters of a text that starts with a jump mnemonic, whitespace and a word. */
  lemma {:induction false} JumpShapeChars(s: string, m: string, sp: string, v: string)
    requires JumpShape(m, sp, v)
    requires |m| + |sp| + |v| <= |s| && s[..|m| + |sp| + |v|] == m + sp + v
    ensures |m| == 3 && s[0..3] == m
    ensures IsWordChar(s[0]) && IsWordChar(s[2]) && !IsWordChar(s[3])
    ensures forall k | 3 <= k < 3 + |sp| :: InClass(Spaces, s[k])
    ensures forall k | |m| + |sp| <= k < |m| + |sp| + |v| :: InClass(WordChars, s[k])
  {
    JumpMnemonicIsWord(m);
    var p := s[..|m| + |sp| + |v|];
    var q := m + sp;
    assert p == q + v;
    assert s[0..3] == p[0..3] == q[0..3] == m;
    assert s[0] == m[0] && s[2] == m[2];
    forall k | 3 <= k < 3 + |sp| ensures InClass(Spaces, s[k]) {
      assert s[k] == p[k] == q[k] == sp[k - 3];
    }
    assert IsSpace(s[3]);
    forall k | |q| <= k < |q| + |v| ensures InClass(WordChars, s[k]) {
      assert s[k] == p[k] == v[k - |q|];
    }
  }

  /** The jump pattern matches a mnemonic, whitespace and a whole word at the start. */
  lemma {:induction false} JumpTargetAtShape(s: string, m: string, sp: string, v: string)
    requires JumpShape(m, sp, v)
    requires |m| + |sp| + |v| <= |s| && s[..|m| + |sp| + |v|] == m + sp + v
    requires |m| + |sp| + |v| == |s| || !IsWordChar(s[|m| + |sp| + |v|])
    ensures JumpTargetAt(s, 0) == Some((|m| + |sp|, |m| + |sp| + |v|))
  {
    JumpShapeChars(s, m, sp, v);
    assert JumpMnemonicAt(s, 0) && WordBoundary(s, 0) && WordBoundary(s, 3);
    SpanOfRun(s, 3, |sp|, Spaces);
    SpanOfRun(s, |m| + |sp|, |v|, WordChars);
  }

  /** The word of a text that starts with a jump mnemonic, whitespace and a word. */
  lemma {:induction false} JumpShapeWord(s: string, m: string, sp: string, v: string)
    requires |m| + |sp| + |v| <= |s| && s[..|m| + |sp| + |v|] == m + sp + v
    ensures s[|m| + |sp|..|m| + |sp| + |v|] == v
  {
    var p := s[..|m| + |sp| + |v|];
    assert s[|m| + |sp|..|m| + |sp| + |v|] == p[|m| + |sp|..] == v;
  }

  /** Where the jump pattern matches at the start, the rewrite emits its replacement and goes on after the word. */
  lemma {:induction false} SeparateJumpsAtMatch(s: string, target: nat, end: nat)
    requires JumpTargetAt(s, 0) == Some((target, end))
    ensures SeparateJumps(s, 0) == s[0..3] + ", " + s[target..end] + SeparateJumps(s, end)
  {
    assert JumpStep(s, 0) == (s[0..3] + ", " + s[target..end], end);
    SeparateJumpsStep(s, 0);
  }

  /**
   * A text that starts with a jump mnemonic, whitespace and a whole word:
   * the rewrite replaces the whitespace by `, `, keeps the word, and goes on
   * after it.
   */
  lemma {:induction false} SeparateJumpsSeparates(s: string, m: string, sp: string, v: string)
    requires JumpShape(m, sp, v)
    requires |m| + |sp| + |v| <= |s| && s[..|m| + |sp| + |v|] == m + sp + v
    requires |m| + |sp| + |v| == |s| || !IsWordChar(s[|m| + |sp| + |v|])
    ensures SeparateJumps(s, 0) == m + ", " + v + SeparateJumps(s, |m| + |sp| + |v|)
  {
    JumpTargetAtShape(s, m, sp, v);
    JumpShapeChars(s, m, sp, v);
    JumpShapeWord(s, m, sp, v);
    SeparateJumpsAtMatch(s, |m| + |sp|, |m| + |sp| + |v|);
  }

  /** One step of the jump scan. */
  lemma {:induction false} SeparateJumpsStep(s: string, i: nat)
    requires i < |s|
    ensures SeparateJumps(s, i) == JumpStep(s, i).0 + SeparateJumps(s, JumpStep(s, i).1)
  {
  }

  /** A jump to a label gets its separator. */
  lemma {:induction false} SeparateJumpsExample()
    ensures SeparateJumps("JMP loop", 0) == "JMP, loop"
  {
    var s := "JMP loop";
    assert s[0..3] == "JMP";
    assert Span(s, 3, Spaces) == 1;
    assert Span(s, 4, WordChars) == 4;
    assert JumpTargetAt(s, 0) == Some((4, 8));
    assert s[4..8] == "loop";
  }

  /** The mnemonic is matched case-sensitively: a lower-case jump gets no separator. */
  lemma {:induction false} SeparateJumpsIsCaseSensitive()
    ensures SeparateJumps("jmp loop", 0) == "jmp loop"
  {
    var t := "jmp loop";
    forall k | 0 <= k <= |t| ensures !JumpMnemonicAt(t, k) {
      if k + 3 <= |t| {
        assert t[k..k + 3][0] == t[k];
      }
    }
    SeparateJumpsNeedsMnemonic(t, 0);
  }

  /** A jump to an absolute address written with `$` is left alone: `$` is not a word character. */
  lemma {:induction false} SeparateJumpsSkipsDollar()
    ensures SeparateJumps("JMP $C000", 0) == "JMP $C000"
  {
    var s := "JMP $C000";
    assert s[0..3] == "JMP";
    assert Span(s, 3, Spaces) == 1;
    assert JumpTargetAt(s, 0).None?;
    forall k | 1 <= k <= |s| ensures !JumpMnemonicAt(s, k) {
      if k + 3 <= |s| {
        assert s[k..k + 3][0] == s[k];
      }
    }
    SeparateJumpsNeedsMnemonic(s, 1);
  }

  // ---------------------------------------------------------------------------
  // //[^\n]*|/\*.*?\*/   (DOTALL)  ->  ''
  // ---------------------------------------------------------------------------

  /** The first line feed at or after `i`, or the end of the text. */
  function LineEnd(s: string, i: nat): (e: nat)
    requires i <= |s|
    ensures i <= e <= |s| && (e == |s| || s[e] == '\n')
    decreases |s| - i
  {
    if i == |s| || s[i] == '\n' then i else LineEnd(s, i + 1)
  }

  // The first star-slash pair at or after `i`: where a lazily matched block
  // comment closes.
  function CommentClose(s: string, i: nat): (r: Option<nat>)
    requires i <= |s|
    ensures r.Some? ==> i <= r.value && Pair(s, r.value, '*', '/')
    decreases |s| - i
  {
    if i + 1 >= |s| then None
    else if Pair(s, i, '*', '/') then Some(i)
    else CommentClose(s, i + 1)
  }

  // One step of the comment removal at position `i`: the text kept and the
  // position where the scan resumes. A line comment runs up to (not
  // including) the next line feed; a block comment runs up to the first
  // closing star-slash after its opening slash-star and may span lines; an
  // opening that is never closed is kept as text.
  function CommentStep(s: string, i: nat): (r: (string, nat))
    requires i < |s|
    ensures i < r.1 <= |s|
    ensures r.0 == [] || (r.0 == [s[i]] && r.1 == i + 1)
  {
    if Pair(s, i, '/', '/') then ([], LineEnd(s, i + 2))
    else if Pair(s, i, '/', '*') && CommentClose(s, i + 2).Some? then ([], CommentClose(s, i + 2).value + 2)
    else ([s[i]], i + 1)
  }

  /** The comment removal applied to `s[i..]`. */
  function StripComments(s: string, i: nat): string
    requires i <= |s|
    decreases |s| - i
  {
    if i == |s| then [] else CommentStep(s, i).0 + StripComments(s, CommentStep(s, i).1)
  }

  /** One step of the comment removal. */
  lemma {:induction false} StripCommentsStep(s: string, i: nat)
    requires i < |s|
    ensures StripComments(s, i) == CommentStep(s, i).0 + StripComments(s, CommentStep(s, i).1)
  {
  }

  /** A step that removes a comment ending before `next`: the scan goes on at `next`. */
  lemma {:induction false} StripCommentsSkip(s: string, i: nat, next: nat)
    requires i < |s| && CommentStep(s, i) == ([], next)
    ensures StripComments(s, i) == StripComments(s, next)
  {
    StripCommentsStep(s, i);
  }

  /** A character other than a slash is kept. */
  lemma {:induction false} StripCommentsKeepsOne(s: string, i: nat)
    requires i < |s| && s[i] != '/'
    ensures StripComments(s, i) == [s[i]] + StripComments(s, i + 1)
  {
    StripCommentsStep(s, i);
  }

  /** Text holding no slash passes through the comment removal unchanged. */
  lemma {:induction false} StripCommentsKeepsPlain(s: string, i: nat, j: nat)
    requires i <= j <= |s|
    requires forall k | i <= k < j :: s[k] != '/'
    ensures StripComments(s, i) == s[i..j] + StripComments(s, j)
    decreases j - i
  {
    if i < j {
      var rest := StripComments(s, j);
      StripCommentsKeepsPlain(s, i + 1, j);
      StripCommentsKeepsOne(s, i);
      assert s[i..j] == [s[i]] + s[i + 1..j];
      assert [s[i]] + (s[i + 1..j] + rest) == s[i..j] + rest;
    } else {
      assert s[i..j] == [];
    }
  }

  /** A run of `n` characters other than a line feed, ended by one or by the end of the text, is where a line ends. */
  lemma {:induction false} LineEndOfRun(s: string, i: nat, n: nat)
    requires i + n <= |s|
    requires forall k | i <= k < i + n :: !IsNewline(s[k])
    requires i + n == |s| || IsNewline(s[i + n])
    ensures LineEnd(s, i) == i + n
    decreases n
  {
    if n > 0 {
      LineEndOfRun(s, i + 1, n - 1);
    }
  }

  /** The first star-slash pair after a run holding none is where a block comment closes. */
  lemma {:induction false} CommentCloseOfRun(s: string, i: nat, n: nat)
    requires Pair(s, i + n, '*', '/')
    requires forall k | i <= k < i + n :: !Pair(s, k, '*', '/')
    ensures CommentClose(s, i) == Some(i + n)
    decreases n
  {
    if n > 0 {
      CommentCloseOfRun(s, i + 1, n - 1);
    }
  }

  predicate NoSlash(x: string) {
    forall k | 0 <= k < |x| :: x[k] != '/'
  }

  predicate NoLineFeed(c: string) {
    forall k | 0 <= k < |c| :: !IsNewline(c[k])
  }

  /** No star-slash pair inside the text. */
  predicate NoCommentClose(c: string) {
    forall k | 0 <= k < |c| - 1 :: !(c[k] == '*' && c[k + 1] == '/')
  }

  /** The characters of a text that starts with slash-free text, `//` and the rest of a line. */
  lemma {:induction false} LineCommentChars(s: string, x: string, c: string)
    requires NoSlash(x) && NoLineFeed(c)
    requires |x| + 2 + |c| <= |s| && s[..|x| + 2 + |c|] == x + "//" + c
    ensures s[0..|x|] == x && forall k | 0 <= k < |x| :: s[k] != '/'
    ensures Pair(s, |x|, '/', '/')
    ensures forall k | |x| + 2 <= k < |x| + 2 + |c| :: !IsNewline(s[k])
  {
    var p := s[..|x| + 2 + |c|];
    var q := x + "//";
    assert p == q + c;
    assert s[0..|x|] == p[0..|x|] == q[0..|x|] == x;
    forall k | 0 <= k < |x| ensures s[k] != '/' {
      assert s[k] == p[k] == q[k] == x[k];
    }
    assert s[|x|] == p[|x|] == q[|x|] && s[|x| + 1] == p[|x| + 1] == q[|x| + 1];
    forall k | |x| + 2 <= k < |x| + 2 + |c| ensures !IsNewline(s[k]) {
      assert s[k] == p[k] == c[k - |q|];
    }
  }

  /**
   * A line comment removes the rest of its line and nothing more: a text
   * that starts with slash-free text `x`, then `//` and line text `c`, and
   * goes on with a line feed or ends, keeps `x` and resumes at the line feed.
   */
  lemma {:induction false} StripLineComment(s: string, x: string, c: string)
    requires NoSlash(x) && NoLineFeed(c)
    requires |x| + 2 + |c| <= |s| && s[..|x| + 2 + |c|] == x + "//" + c
    requires |x| + 2 + |c| == |s| || IsNewline(s[|x| + 2 + |c|])
    ensures StripComments(s, 0) == x + StripComments(s, |x| + 2 + |c|)
  {
    LineCommentChars(s, x, c);
    StripCommentsKeepsPlain(s, 0, |x|);
    LineEndOfRun(s, |x| + 2, |c|);
    StripCommentsSkip(s, |x|, |x| + 2 + |c|);
  }

  /** The characters of a text that starts with slash-free text and a closed block comment. */
  lemma {:induction false} BlockCommentChars(s: string, x: string, c: string)
    requires NoSlash(x) && NoCommentClose(c)
    requires |x| + |c| + 4 <= |s| && s[..|x| + |c| + 4] == x + "/*" + c + "*/"
    ensures s[0..|x|] == x && forall k | 0 <= k < |x| :: s[k] != '/'
    ensures Pair(s, |x|, '/', '*')
    ensures Pair(s, |x| + 2 + |c|, '*', '/')
    ensures forall k | |x| + 2 <= k < |x| + 2 + |c| :: !Pair(s, k, '*', '/')
  {
    var p := s[..|x| + |c| + 4];
    var q := x + "/*";
    var r := q + c;
    assert p == r + "*/";
    assert r == q + c;
    assert s[0..|x|] == p[0..|x|] == r[0..|x|] == q[0..|x|] == x;
    forall k | 0 <= k < |x| ensures s[k] != '/' {
      assert s[k] == p[k] == r[k] == q[k] == x[k];
    }
    assert s[|x|] == p[|x|] == r[|x|] == q[|x|];
    assert s[|x| + 1] == p[|x| + 1] == r[|x| + 1] == q[|x| + 1];
    assert s[|r|] == p[|r|] == '*' && s[|r| + 1] == p[|r| + 1] == '/';
    forall k | |x| + 2 <= k < |x| + 2 + |c| ensures !Pair(s, k, '*', '/') {
      assert s[k] == p[k] == r[k] == c[k - |q|];
      if k + 1 < |r| {
        assert s[k + 1] == p[k + 1] == r[k + 1] == c[k + 1 - |q|];
      } else {
        assert s[k + 1] == p[k + 1] == '*';
      }
    }
  }

  /**
   * A block comment removes everything up to its first closing star-slash:
   * a text that starts with slash-free text `x`, then an opening, text `c`
   * holding no star-slash, and the closing, keeps `x` and resumes after the
   * closing.
   */
  lemma {:induction false} StripBlockComment(s: string, x: string, c: string)
    requires NoSlash(x) && NoCommentClose(c)
    requires |x| + |c| + 4 <= |s| && s[..|x| + |c| + 4] == x + "/*" + c + "*/"
    ensures StripComments(s, 0) == x + StripComments(s, |x| + |c| + 4)
  {
    BlockCommentChars(s, x, c);
    StripCommentsKeepsPlain(s, 0, |x|);
    CommentCloseOfRun(s, |x| + 2, |c|);
    StripCommentsSkip(s, |x|, |x| + |c| + 4);
  }

  /** `a` can be obtained from `b` by deleting characters. */
  predicate Subsequence(a: string, b: string)
    decreases |b|
  {
    if a == [] then true
    else if b == [] then false
    else (a[0] == b[0] && Subsequence(a[1..], b[1..])) || Subsequence(a, b[1..])
  }

  lemma {:induction false} SubsequenceSkip(a: string, x: string, b: string)
    requires Subsequence(a, b)
    ensures Subsequence(a, x + b)
    decreases |x|
  {
    if x != [] && a != [] {
      assert (x + b)[1..] == x[1..] + b;
      SubsequenceSkip(a, x[1..], b);
      assert Subsequence(a, (x + b)[1..]);
    } else if a != [] {
      assert x + b == b;
    }
  }

  /** Comment removal only deletes characters. */
  lemma {:induction false} StripCommentsDeletes(s: string, i: nat)
    requires i <= |s|
    ensures Subsequence(StripComments(s, i), s[i..])
    decreases |s| - i
  {
    if i < |s| {
      var (piece, next) := CommentStep(s, i);
      var rest := StripComments(s, next);
      StripCommentsDeletes(s, next);
      assert s[i..] == s[i..next] + s[next..];
      if piece == [] {
        assert piece + rest == rest;
        SubsequenceSkip(rest, s[i..next], s[next..]);
      } else {
        var out := piece + rest;
        assert out[0] == s[i..][0] && out[1..] == rest;
        assert s[i..][1..] == s[next..];
      }
    }
  }

  /** A text without `/` has no comment and is unchanged. */
  lemma {:induction false} StripCommentsNeedsSlash(s: string, i: nat)
    requires i <= |s|
    requires forall k | 0 <= k < |s| :: s[k] != '/'
    ensures StripComments(s, i) == s[i..]
    decreases |s| - i
  {
    if i < |s| {
      StripCommentsNeedsSlash(s, i + 1);
      assert s[i..] == [s[i]] + s[i + 1..];
    }
  }

  /** No `//` anywhere in the text. */
  predicate NoLineComment(s: string) {
    forall k | 0 <= k < |s| - 1 :: !(s[k] == '/' && s[k + 1] == '/')
  }

  /**
   * After comment removal no `//` is left, even where removing a block
   * comment brings a `/` next to another: a kept `/` is never followed by a
   * `/` in the original text, and a character other than `/` is always kept.
   */
  lemma {:induction false} StripCommentsLeavesNoLineComment(s: string, i: nat)
    requires i <= |s|
    ensures NoLineComment(StripComments(s, i))
    decreases |s| - i
  {
    if i < |s| {
      var (piece, next) := CommentStep(s, i);
      var rest := StripComments(s, next);
      StripCommentsLeavesNoLineComment(s, next);
      var out := piece + rest;
      if piece != [] {
        if s[i] == '/' && rest != [] {
          assert next < |s|;
          assert s[next] != '/';
          assert CommentStep(s, next).0 == [s[next]];
          assert rest[0] == s[next];
        }
        forall k | 0 <= k < |out| - 1 ensures !(out[k] == '/' && out[k + 1] == '/') {
          if k > 0 {
            assert out[k] == rest[k - 1] && out[k + 1] == rest[k];
          }
        }
      } else {
        assert out == rest;
      }
    }
  }

  /** A line comment goes up to the end of the line; the text before it stays. */
  lemma {:induction false} StripLineCommentExample()
    ensures StripComments("NOP // done", 0) == "NOP "
  {
    var s := "NOP // done";
    assert LineEnd(s, 6) == 11;
    assert StripComments(s, 4) == [];
    assert StripComments(s, 0) == "NOP" + StripComments(s, 3);
  }

  /** A closed block comment goes. */
  lemma {:induction false} StripBlockCommentExample()
    ensures StripComments("/**/NOP", 0) == "NOP"
  {
    var t := "/**/NOP";
    assert CommentClose(t, 2) == Some(2);
    assert StripComments(t, 4) == "NOP";
  }

  /** An opening slash-star that is never closed stays as text. */
  lemma {:induction false} UnclosedCommentKept()
    ensures StripComments("/*", 0) == "/*"
  {
    var u := "/*";
    assert CommentClose(u, 2).None?;
    assert StripComments(u, 1) == "*";
  }

  // ---------------------------------------------------------------------------
  // [line for line in text.splitlines() if line.strip()]
  // ---------------------------------------------------------------------------

  /** The first line break at or after `i`, or the end of the text. */
  function BreakAt(s: string, i: nat): (e: nat)
    requires i <= |s|
    ensures i <= e <= |s| && (e == |s| || IsLineBreak(s[e]))
    ensures forall k | i <= k < e :: !IsLineBreak(s[k])
    decreases |s| - i
  {
    if i == |s| || IsLineBreak(s[i]) then i else BreakAt(s, i + 1)
  }

  /**
   * `str.splitlines()`: the pieces between line breaks, without a last empty
   * piece after a final break. A carriage return followed by a line feed
   * counts as two breaks here, which only adds an empty line.
   */
  function SplitLines(s: string): seq<string>
    decreases |s|
  {
    if s == [] then []
    else
      var e := BreakAt(s, 0);
      if e == |s| then [s] else [s[..e]] + SplitLines(s[e + 1..])
  }

  /** A text with no line break up to a break: `splitlines` cuts there and goes on after the break. */
  lemma {:induction false} SplitLinesCons(x: string, b: char, t: string)
    requires forall k | 0 <= k < |x| :: !IsLineBreak(x[k])
    requires IsLineBreak(b)
    ensures SplitLines(x + [b] + t) == [x] + SplitLines(t)
  {
    var s := x + [b] + t;
    assert forall k | 0 <= k < |x| :: s[k] == x[k];
    assert s[|x|] == b;
    assert BreakAt(s, 0) == |x|;
    assert s[..|x|] == x && s[|x| + 1..] == t;
  }

  /** A non-empty text with no line break is one line. */
  lemma {:induction false} SplitLinesLast(x: string)
    requires |x| > 0 && forall k | 0 <= k < |x| :: !IsLineBreak(x[k])
    ensures SplitLines(x) == [x]
  {
    assert BreakAt(x, 0) == |x|;
  }

  /** `not line.strip()`: the line is empty or all whitespace. */
  predicate Blank(line: string) {
    forall k | 0 <= k < |line| :: IsSpace(line[k])
  }

  /** The lines that are not blank, in order. */
  function NonBlank(lines: seq<string>): seq<string> {
    if lines == [] then []
    else (if Blank(lines[0]) then [] else [lines[0]]) + NonBlank(lines[1..])
  }

  function JoinLines(lines: seq<string>): string {
    if lines == [] then [] else lines[0] + JoinLines(lines[1..])
  }

  /** A piece of text holding no line break and no `//`. */
  predicate LinePiece(line: string) {
    (forall k | 0 <= k < |line| :: !IsLineBreak(line[k])) && NoLineComment(line)
  }

  /** A line the assembly loop can receive: not blank, no line break, no `//`. */
  predicate SourceLine(line: string) {
    !Blank(line) && LinePiece(line)
  }

  lemma {:induction false} NoLineCommentSlice(s: string, a: nat, b: nat)
    requires a <= b <= |s| && NoLineComment(s)
    ensures NoLineComment(s[a..b])
  {
    var t := s[a..b];
    forall k | 0 <= k < |t| - 1 ensures !(t[k] == '/' && t[k + 1] == '/') {
      assert t[k] == s[a + k] && t[k + 1] == s[a + k + 1];
    }
  }

  /** The text before the first line break is a piece of a `//`-free text. */
  lemma {:induction false} FirstPiece(s: string)
    requires NoLineComment(s)
    ensures LinePiece(s[..BreakAt(s, 0)])
  {
    var e := BreakAt(s, 0);
    NoLineCommentSlice(s, 0, e);
    assert s[0..e] == s[..e];
  }

  /** The pieces `splitlines` cuts hold no line break, and the `//`-free text gives `//`-free pieces. */
  lemma {:induction false} SplitLinesPieces(s: string)
    requires NoLineComment(s)
    ensures forall line | line in SplitLines(s) :: LinePiece(line)
    decreases |s|
  {
    if s != [] {
      var e := BreakAt(s, 0);
      FirstPiece(s);
      if e < |s| {
        var tail := s[e + 1..];
        NoLineCommentSlice(s, e + 1, |s|);
        assert s[e + 1..|s|] == tail;
        SplitLinesPieces(tail);
        assert SplitLines(s) == [s[..e]] + SplitLines(tail);
      } else {
        assert s[..e] == s;
      }
    }
  }

  lemma {:induction false} NonBlankKeeps(lines: seq<string>, p: string -> bool)
    requires forall line | line in lines :: p(line)
    ensures forall line | line in NonBlank(lines) :: p(line) && !Blank(line)
    decreases |lines|
  {
    if lines != [] {
      assert forall line | line in lines[1..] :: line in lines;
      NonBlankKeeps(lines[1..], p);
    }
  }

  /** Dropping blank lines removes only whitespace. */
  lemma {:induction false} NonBlankKeepsInk(lines: seq<string>)
    ensures Without(JoinLines(NonBlank(lines)), IsSpace) == Without(JoinLines(lines), IsSpace)
    decreases |lines|
  {
    if lines != [] {
      var first, rest := lines[0], lines[1..];
      var kept := if Blank(first) then [] else [first];
      NonBlankKeepsInk(rest);
      assert NonBlank(lines) == kept + NonBlank(rest);
      JoinLinesAppend(kept, NonBlank(rest));
      WithoutAppend(JoinLines(kept), JoinLines(NonBlank(rest)), IsSpace);
      WithoutAppend(first, JoinLines(rest), IsSpace);
      if Blank(first) {
        WithoutAllDropped(first, IsSpace);
        assert JoinLines(kept) == [];
      } else {
        assert JoinLines(kept) == first + JoinLines([]) == first;
      }
    }
  }

  /** Removing a middle part made only of dropped characters. */
  lemma {:induction false} WithoutDroppedMiddle(a: string, x: string, b: string, drop: char -> bool)
    requires Without(x, drop) == []
    ensures Without(a + x + b, drop) == Without(a, drop) + Without(b, drop)
  {
    WithoutAppend(a + x, b, drop);
    WithoutAppend(a, x, drop);
  }

  lemma {:induction false} WithoutAroundSpace(s: string, e: nat)
    requires e < |s| && IsSpace(s[e])
    ensures Without(s, IsSpace) == Without(s[..e], IsSpace) + Without(s[e + 1..], IsSpace)
  {
    var a, x, b := s[..e], [s[e]], s[e + 1..];
    WithoutAllDropped(x, IsSpace);
    WithoutDroppedMiddle(a, x, b, IsSpace);
    assert s[e..] == x + b;
    assert a + s[e..] == s;
    assert a + x + b == a + (x + b);
  }

  /** Cutting into lines removes only the line breaks, which are whitespace. */
  lemma {:induction false} SplitLinesKeepsInk(s: string)
    ensures Without(JoinLines(SplitLines(s)), IsSpace) == Without(s, IsSpace)
    decreases |s|
  {
    if s != [] {
      var e := BreakAt(s, 0);
      if e == |s| {
        assert SplitLines(s) == [s];
        assert JoinLines([s]) == s + JoinLines([]) == s;
      } else {
        SplitLinesKeepsInk(s[e + 1..]);
        SplitLinesKeepsInkStep(s, e);
      }
    }
  }

  /** The step of `SplitLinesKeepsInk` at the first line break. */
  lemma {:induction false} SplitLinesKeepsInkStep(s: string, e: nat)
    requires s != [] && e == BreakAt(s, 0) && e < |s|
    requires Without(JoinLines(SplitLines(s[e + 1..])), IsSpace) == Without(s[e + 1..], IsSpace)
    ensures Without(JoinLines(SplitLines(s)), IsSpace) == Without(s, IsSpace)
  {
    var first, rest := s[..e], SplitLines(s[e + 1..]);
    assert SplitLines(s) == [first] + rest;
    assert JoinLines([first] + rest) == first + JoinLines(rest);
    WithoutAppend(first, JoinLines(rest), IsSpace);
    WithoutAroundSpace(s, e);
  }

  lemma {:induction false} JoinLinesAppend(a: seq<string>, b: seq<string>)
    ensures JoinLines(a + b) == JoinLines(a) + JoinLines(b)
    decreases |a|
  {
    if a != [] {
      assert (a + b)[0] == a[0] && (a + b)[1..] == a[1..] + b;
      JoinLinesAppend(a[1..], b);
    } else {
      assert a + b == b;
    }
  }

  // ---------------------------------------------------------------------------
  // The whole preprocessing
  // ---------------------------------------------------------------------------

  /** The lines the assembly loop runs over, from the text of the input file. */
  function Preprocess(buffer: string): seq<string> {
    var labelled := SplitLabels(buffer, 0);
    var separated := SeparateJumps(labelled, 0);
    var stripped := StripComments(separated, 0);
    NonBlank(SplitLines(stripped))
  }

  /** Every preprocessed line is non-blank, holds no line break and no `//`. */
  lemma {:induction false} PreprocessLines(buffer: string)
    ensures forall line | line in Preprocess(buffer) :: SourceLine(line)
  {
    var stripped := StripComments(SeparateJumps(SplitLabels(buffer, 0), 0), 0);
    StripCommentsLeavesNoLineComment(SeparateJumps(SplitLabels(buffer, 0), 0), 0);
    SplitLinesPieces(stripped);
    NonBlankKeeps(SplitLines(stripped), LinePiece);
  }

  /**
   * Apart from whitespace, the preprocessed lines hold exactly the text left
   * after comment removal: nothing but blank lines and line breaks is dropped.
   */
  lemma {:induction false} PreprocessKeepsInk(buffer: string)
    ensures Without(JoinLines(Preprocess(buffer)), IsSpace)
         == Without(StripComments(SeparateJumps(SplitLabels(buffer, 0), 0), 0), IsSpace)
  {
    var stripped := StripComments(SeparateJumps(SplitLabels(buffer, 0), 0), 0);
    NonBlankKeepsInk(SplitLines(stripped));
    SplitLinesKeepsInk(stripped);
  }
}
