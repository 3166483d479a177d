/**
 * What the scanner promises, stated over LexerSpec and therefore, through
 * Lexer.Tokenize's postcondition, over the imperative scanner too.
 */
module LexerProps {
  import opened Values
  import opened Tokens
  import opened Keywords
  import opened Decimal
  import opened LexerSpec

  /** A state in which the next iteration looks at its character afresh. */
  predicate Fresh(st: LexState) {
    !st.skipNext && !st.comment
  }

  predicate NoEof(ts: seq<Token>) {
    forall i :: 0 <= i < |ts| ==> ts[i].kind != EOF
  }

  // ------------------------------------------------------ single steps

  lemma RunStep(src: string, st: LexState)
    requires st.pos < |src|
    ensures Run(src, st) == Run(src, Step(src, st))
  {
  }

  lemma RunAtEnd(src: string, st: LexState)
    requires st.pos >= |src|
    ensures Run(src, st) == st
  {
  }

  lemma StepInComment(src: string, st: LexState)
    requires st.comment && !st.skipNext && st.pos < |src| && src[st.pos] != '\n'
    ensures Step(src, st) == st.(pos := st.pos + 1)
  {
  }

  lemma StepNewline(src: string, st: LexState)
    requires !st.skipNext && st.pos < |src| && src[st.pos] == '\n'
    ensures Step(src, st) == st.(pos := st.pos + 1, line := st.line + 1, comment := false)
  {
  }

  // ---------------------------------------------------------------- EOF

  lemma StepNoEof(src: string, st: LexState)
    requires st.pos < |src| && NoEof(st.tokens)
    ensures NoEof(Step(src, st).tokens)
  {
    var c := src[st.pos];
    if !st.skipNext && !(st.comment && c != '\n') && PunctuationKind(c).None? && IsAlpha(c) {
      var text := src[st.pos..IdentifierEnd(src, st.pos) + 1];
      LookupKinds(text);
    }
  }

  lemma {:induction false} RunNoEof(src: string, st: LexState)
    requires NoEof(st.tokens)
    ensures NoEof(Run(src, st).tokens)
    decreases |src| - st.pos
  {
    if st.pos < |src| {
      StepNoEof(src, st);
      RunNoEof(src, Step(src, st));
    }
  }

  /**
   * The token list ends with exactly one EOF token, carrying the final line,
   * whatever the input, the empty input included.
   */
  lemma ScanEndsWithOneEof(src: string)
    ensures var ts := Scan(src).tokens;
      |ts| >= 1 && ts[|ts| - 1] == Token(EOF, "", Nil, Run(src, Initial).line)
      && forall i :: 0 <= i < |ts| - 1 ==> ts[i].kind != EOF
  {
    RunNoEof(src, Initial);
  }

  lemma ScanEmpty()
    ensures Scan("") == ScanResult([Token(EOF, "", Nil, 1)], false, 0, [])
  {
  }

  // ------------------------------------------------- nothing is taken back

  /** Scanning only appends: tokens and diagnostics already emitted stay, in order. */
  lemma {:induction false} RunOnlyAppends(src: string, st: LexState)
    ensures st.tokens <= Run(src, st).tokens && st.errors <= Run(src, st).errors
    decreases |src| - st.pos
  {
    if st.pos < |src| {
      var next := Step(src, st);
      StepOnlyAppends(src, st);
      RunStep(src, st);
      RunOnlyAppends(src, next);
    } else {
      RunAtEnd(src, st);
    }
  }

  lemma StepOnlyAppends(src: string, st: LexState)
    requires st.pos < |src|
    ensures st.tokens <= Step(src, st).tokens && st.errors <= Step(src, st).errors
  {
  }

  // -------------------------------------------------------- punctuation

  /**
   * The tokens the punctuation characters of `src[i..]` yield on one line:
   * one per character, of its kind, with the character as lexeme and no literal.
   */
  function PunctuationTokens(src: string, i: nat, line: nat): (r: seq<Token>)
    requires i <= |src| && forall k :: i <= k < |src| ==> PunctuationKind(src[k]).Some?
    ensures |r| == |src| - i
    ensures forall k :: 0 <= k < |r| ==> r[k] == Token(PunctuationKind(src[i + k]).value, [src[i + k]], Nil, line)
    decreases |src| - i
  {
    if i == |src| then []
    else [Token(PunctuationKind(src[i]).value, [src[i]], Nil, line)] + PunctuationTokens(src, i + 1, line)
  }

  lemma StepPunctuation(src: string, st: LexState)
    requires Fresh(st) && st.pos < |src| && PunctuationKind(src[st.pos]).Some?
    ensures var c := src[st.pos];
      Step(src, st) == st.(pos := st.pos + 1, tokens := st.tokens + [Token(PunctuationKind(c).value, [c], Nil, st.line)])
  {
  }

  /** Each punctuation character yields one token of its kind, its own lexeme and no literal. */
  lemma {:induction false} RunPunctuation(src: string, st: LexState)
    requires Fresh(st) && st.pos <= |src|
    requires forall i :: st.pos <= i < |src| ==> PunctuationKind(src[i]).Some?
    ensures Run(src, st) == st.(pos := |src|, tokens := st.tokens + PunctuationTokens(src, st.pos, st.line))
    decreases |src| - st.pos
  {
    if st.pos < |src| {
      var c := src[st.pos];
      var tok := Token(PunctuationKind(c).value, [c], Nil, st.line);
      var next := st.(pos := st.pos + 1, tokens := st.tokens + [tok]);
      StepPunctuation(src, st);
      RunStep(src, st);
      RunPunctuation(src, next);
      assert st.tokens + [tok] + PunctuationTokens(src, st.pos + 1, st.line)
          == st.tokens + PunctuationTokens(src, st.pos, st.line);
    } else {
      RunAtEnd(src, st);
    }
  }

  /**
   * A source made of punctuation only scans to one token per character, in
   * order and all on line 1, then EOF, without errors.
   */
  lemma ScanPunctuation(src: string)
    requires forall i :: 0 <= i < |src| ==> PunctuationKind(src[i]).Some?
    ensures Scan(src) == ScanResult(PunctuationTokens(src, 0, 1) + [Token(EOF, "", Nil, 1)], false, 0, [])
  {
    var tokens := PunctuationTokens(src, 0, 1);
    var last := Initial.(pos := |src|, tokens := tokens);
    RunPunctuationFromStart(src, tokens);
    ScanOfRun(src, last);
  }

  lemma RunPunctuationFromStart(src: string, tokens: seq<Token>)
    requires forall i :: 0 <= i < |src| ==> PunctuationKind(src[i]).Some?
    requires tokens == PunctuationTokens(src, 0, 1)
    ensures Run(src, Initial) == Initial.(pos := |src|, tokens := tokens)
  {
    RunPunctuation(src, Initial);
    assert [] + tokens == tokens;
  }

  /** Scan in terms of the state the main loop ends in. */
  lemma ScanOfRun(src: string, last: LexState)
    requires Run(src, Initial) == last
    ensures Scan(src) == ScanResult(last.tokens + [Token(EOF, "", Nil, last.line)], |last.errors| > 0, |last.errors|, last.errors)
  {
  }

  // ------------------------------------------------- one- and two-character operators

  /** The one- and two-character kinds of `! = < >`. */
  function OperatorKinds(c: char): (TokenKind, TokenKind) {
    match c
    case '!' => (BANG, BANG_EQUAL)
    case '=' => (EQUAL, EQUAL_EQUAL)
    case '<' => (LESS, LESS_EQUAL)
    case _ => (GREATER, GREATER_EQUAL)
  }

  /** `!=`, `==`, `<=`, `>=` give one two-character token, and the '=' is not scanned again. */
  lemma TwoCharacterOperator(src: string, st: LexState)
    requires Fresh(st) && st.pos + 1 < |src| && src[st.pos] in "!=<>" && src[st.pos + 1] == '='
    ensures Step(src, Step(src, st))
         == st.(pos := st.pos + 2, tokens := st.tokens + [Token(OperatorKinds(src[st.pos]).1, [src[st.pos], '='], Nil, st.line)])
  {
  }

  /** Without a following '=', `! = < >` give their one-character token. */
  lemma OneCharacterOperator(src: string, st: LexState)
    requires Fresh(st) && st.pos < |src| && src[st.pos] in "!=<>" && CharAt(src, st.pos + 1) != '='
    ensures Step(src, st)
         == st.(pos := st.pos + 1, tokens := st.tokens + [Token(OperatorKinds(src[st.pos]).0, [src[st.pos]], Nil, st.line)])
  {
  }

  // ------------------------------------------------------------ comments

  /** The index of the first newline at or after `i`, or `|src|`. */
  function LineEnd(src: string, i: nat): (k: nat)
    requires i <= |src|
    ensures i <= k <= |src|
    ensures forall m :: i <= m < k ==> src[m] != '\n'
    ensures k < |src| ==> src[k] == '\n'
    decreases |src| - i
  {
    if i == |src| || src[i] == '\n' then i else LineEnd(src, i + 1)
  }

  /**
   * Inside a comment everything up to the next newline is dropped; the
   * newline itself ends the comment and advances the line.
   */
  lemma {:induction false} CommentRunsToLineEnd(src: string, st: LexState, k: nat)
    requires st.comment && !st.skipNext && st.pos <= |src| && k == LineEnd(src, st.pos)
    ensures Run(src, st) == if k == |src| then st.(pos := |src|)
                            else Run(src, st.(pos := k + 1, line := st.line + 1, comment := false))
    decreases |src| - st.pos
  {
    if st.pos < |src| {
      RunStep(src, st);
      if src[st.pos] == '\n' {
        StepNewline(src, st);
      } else {
        StepInComment(src, st);
        CommentRunsToLineEnd(src, st.(pos := st.pos + 1), k);
      }
    } else {
      RunAtEnd(src, st);
    }
  }

  /** `//` discards the rest of its line: scanning resumes after the newline, one line further on. */
  lemma LineComment(src: string, st: LexState, k: nat)
    requires Fresh(st) && st.pos + 1 < |src| && src[st.pos] == '/' && src[st.pos + 1] == '/'
    requires k == LineEnd(src, st.pos + 2)
    ensures Run(src, st) == if k == |src| then st.(pos := |src|, comment := true)
                            else Run(src, st.(pos := k + 1, line := st.line + 1))
  {
    CommentStart(src, st);
    CommentRunsToLineEnd(src, st.(pos := st.pos + 2, comment := true), k);
  }

  /** `//` sets the comment flag and the second '/' is skipped. */
  lemma CommentStart(src: string, st: LexState)
    requires Fresh(st) && st.pos + 1 < |src| && src[st.pos] == '/' && src[st.pos + 1] == '/'
    ensures Run(src, st) == Run(src, st.(pos := st.pos + 2, comment := true))
  {
    var second := st.(pos := st.pos + 1, comment := true, skipNext := true);
    assert Step(src, st) == second;
    RunStep(src, st);
    assert Step(src, second) == st.(pos := st.pos + 2, comment := true);
    RunStep(src, second);
  }

  /** A lone '/' is the SLASH token. */
  lemma Slash(src: string, st: LexState)
    requires Fresh(st) && st.pos < |src| && src[st.pos] == '/' && CharAt(src, st.pos + 1) != '/'
    ensures Step(src, st) == st.(pos := st.pos + 1, tokens := st.tokens + [Token(SLASH, "/", Nil, st.line)])
  {
  }

  // ------------------------------------------------------------- numbers

  lemma {:induction false} DigitRunEndIsMaximal(src: string, i: nat)
    requires i < |src|
    ensures var j := DigitRunEnd(src, i);
      (forall k :: i < k <= j ==> IsDigit(src[k])) && !IsDigit(CharAt(src, j + 1))
    decreases |src| - i
  {
    if IsDigit(CharAt(src, i + 1)) {
      DigitRunEndIsMaximal(src, i + 1);
    }
  }

  lemma SliceConcat(s: string, i: nat, m: nat, j: nat)
    requires i <= m <= j <= |s|
    ensures s[i..j] == s[i..m] + s[m..j]
  {
  }

  /** The digits of `src[i..j + 1]` when every index in that range holds one. */
  lemma DigitSlice(src: string, i: nat, j: nat)
    requires i <= j + 1 <= |src|
    requires forall k :: i <= k <= j ==> IsDigit(src[k])
    ensures AllDigits(src[i..j + 1])
  {
    var s := src[i..j + 1];
    forall k | 0 <= k < |s| ensures IsDigit(s[k]) {
      assert s[k] == src[i + k];
    }
  }

  /**
   * A number lexeme `src[i..j + 1]` is a maximal run of digits ending at `d`,
   * followed, when the next character is '.', by that '.' and the maximal run
   * of digits after it, which may be empty.
   */
  lemma NumberLexeme(src: string, i: nat, d: nat, j: nat)
    requires i < |src| && IsDigit(src[i]) && d == DigitRunEnd(src, i) && j == NumberEnd(src, i)
    ensures forall k :: i <= k <= d ==> IsDigit(src[k])
    ensures !IsDigit(CharAt(src, d + 1))
    ensures CharAt(src, d + 1) != '.' ==> j == d
    ensures CharAt(src, d + 1) == '.' ==>
      d + 1 <= j && (forall k :: d + 1 < k <= j ==> IsDigit(src[k])) && !IsDigit(CharAt(src, j + 1))
  {
    DigitRunEndIsMaximal(src, i);
    if CharAt(src, d + 1) == '.' {
      DigitRunEndIsMaximal(src, d + 1);
    }
  }

  /** The number lexeme split at its '.', each side made of digits. */
  lemma NumberLexemeParts(src: string, i: nat, d: nat, j: nat)
    requires i <= d < |src| && forall k :: i <= k <= d ==> IsDigit(src[k])
    requires CharAt(src, d + 1) != '.' ==> j == d
    requires CharAt(src, d + 1) == '.' ==> d + 1 <= j < |src| && forall k :: d + 1 < k <= j ==> IsDigit(src[k])
    ensures AllDigits(src[i..d + 1])
    ensures CharAt(src, d + 1) != '.' ==> src[i..j + 1] == src[i..d + 1]
    ensures CharAt(src, d + 1) == '.' ==>
      AllDigits(src[d + 2..j + 1]) && src[i..j + 1] == src[i..d + 1] + "." + src[d + 2..j + 1]
  {
    DigitSlice(src, i, d);
    if CharAt(src, d + 1) == '.' {
      DigitSlice(src, d + 2, j);
      SliceConcat(src, i, d + 1, j + 1);
      SliceConcat(src, d + 1, d + 2, j + 1);
      assert src[d + 1..d + 2] == ".";
    }
  }

  /**
   * The literal of a number lexeme `a.f` or `a` is the value of the digits
   * `a` plus the digits `f` read as a fraction.
   */
  lemma NumberLexemeValue(src: string, i: nat, d: nat, j: nat)
    requires i < |src| && IsDigit(src[i]) && d == DigitRunEnd(src, i) && j == NumberEnd(src, i)
    ensures CharAt(src, d + 1) != '.' ==> NumberLiteral(src[i..j + 1]) == DigitsValue(src[i..d + 1]) as real
    ensures CharAt(src, d + 1) == '.' ==>
      NumberLiteral(src[i..j + 1]) == DigitsValue(src[i..d + 1]) as real + FractionValue(src[d + 2..j + 1])
  {
    NumberLexeme(src, i, d, j);
    NumberLexemeParts(src, i, d, j);
    var a := src[i..d + 1];
    if CharAt(src, d + 1) == '.' {
      NumberLiteralOfParts(a, src[d + 2..j + 1]);
    } else {
      NumberLiteralOfDigits(a);
    }
  }

  /** A digit starts a NUMBER token whose lexeme ends at `j`; scanning resumes after it. */
  lemma NumberToken(src: string, st: LexState, j: nat)
    requires Fresh(st) && st.pos < |src| && IsDigit(src[st.pos]) && j == NumberEnd(src, st.pos)
    ensures Step(src, st) == st.(pos := j + 1,
      tokens := st.tokens + [Token(NUMBER, src[st.pos..j + 1], Num(NumberLiteral(src[st.pos..j + 1])), st.line)])
  {
    StepNumber(src, st);
    ScanNumberAt(src, st, j, src[st.pos..j + 1]);
  }

  lemma StepNumber(src: string, st: LexState)
    requires Fresh(st) && st.pos < |src| && IsDigit(src[st.pos])
    ensures Step(src, st) == ScanNumber(src, st).(pos := ScanNumber(src, st).pos + 1)
  {
  }

  // ------------------------------------------------------------- strings

  lemma {:induction false} StringCloseIsFirstQuote(src: string, i: nat)
    requires i <= |src|
    ensures var k := StringClose(src, i);
      (forall m :: i <= m < k ==> src[m] != '"') && (k < |src| ==> src[k] == '"')
    decreases |src| - i
  {
    if i < |src| && src[i] != '"' {
      StringCloseIsFirstQuote(src, i + 1);
    }
  }

  lemma StepString(src: string, st: LexState)
    requires Fresh(st) && st.pos < |src| && src[st.pos] == '"'
    ensures Step(src, st) == ScanString(src, st).(pos := ScanString(src, st).pos + 1)
  {
  }

  lemma QuotedSlice(src: string, i: nat, k: nat)
    requires i < k < |src| && src[i] == '"' && src[k] == '"'
    requires forall m :: i < m < k ==> src[m] != '"'
    ensures src[i..k + 1] == ['"'] + src[i + 1..k] + ['"'] && '"' !in src[i + 1..k]
  {
    SliceConcat(src, i, i + 1, k + 1);
    SliceConcat(src, i + 1, k, k + 1);
    var text := src[i + 1..k];
    forall n | 0 <= n < |text| ensures text[n] != '"' {
      assert text[n] == src[i + 1 + n];
    }
  }

  /**
   * A '"' whose closing quote is at `k` gives a STRING token whose lexeme
   * runs from quote to quote and whose literal is the text between them
   * (StringLexeme); the line advances by the newlines inside, and scanning
   * resumes after the closing quote.
   */
  lemma TerminatedString(src: string, st: LexState, k: nat)
    requires Fresh(st) && st.pos < |src| && src[st.pos] == '"' && k == StringClose(src, st.pos + 1) && k < |src|
    ensures var line := st.line + NewlinesIn(src, st.pos + 1, k);
      Step(src, st) == st.(pos := k + 1, line := line,
                           tokens := st.tokens + [Token(STRING, src[st.pos..k + 1], Str(src[st.pos + 1..k]), line)])
  {
    StepString(src, st);
  }

  /** The lexeme of a terminated string is its text between two quotes, and the text holds no quote. */
  lemma StringLexeme(src: string, i: nat, k: nat)
    requires i < |src| && src[i] == '"' && k == StringClose(src, i + 1) && k < |src|
    ensures src[i..k + 1] == ['"'] + src[i + 1..k] + ['"'] && '"' !in src[i + 1..k]
  {
    StringCloseIsFirstQuote(src, i + 1);
    QuotedSlice(src, i, k);
  }

  /**
   * A '"' without a closing quote adds one UnterminatedString diagnostic at
   * the line reached, emits no token, and ends the scan.
   */
  lemma UnterminatedString(src: string, st: LexState)
    requires Fresh(st) && st.pos < |src| && src[st.pos] == '"' && StringClose(src, st.pos + 1) == |src|
    ensures var line := st.line + NewlinesIn(src, st.pos + 1, |src|);
      Run(src, st) == st.(pos := |src| + 1, line := line, errors := st.errors + [LexerSpec.UnterminatedString(line)])
  {
    var line := st.line + NewlinesIn(src, st.pos + 1, |src|);
    var after := st.(pos := |src|, line := line, errors := st.errors + [LexerSpec.UnterminatedString(line)]);
    ScanStringUnterminated(src, st);
    StepString(src, st);
    RunStep(src, st);
    RunAtEnd(src, after.(pos := |src| + 1));
  }

  lemma ScanStringUnterminated(src: string, st: LexState)
    requires st.pos < |src| && StringClose(src, st.pos + 1) == |src|
    ensures var line := st.line + NewlinesIn(src, st.pos + 1, |src|);
      ScanString(src, st) == st.(pos := |src|, line := line, errors := st.errors + [LexerSpec.UnterminatedString(line)])
  {
  }

  // ---------------------------------------------------------- identifiers

  lemma {:induction false} IdentifierEndIsMaximal(src: string, i: nat)
    requires i < |src|
    ensures var j := IdentifierEnd(src, i);
      (forall k :: i < k <= j ==> IsAlphaNumeric(src[k])) && !IsAlphaNumeric(CharAt(src, j + 1))
    decreases |src| - i
  {
    if IsAlphaNumeric(CharAt(src, i + 1)) {
      IdentifierEndIsMaximal(src, i + 1);
    }
  }

  /**
   * A letter or '_' starts a token whose lexeme is the maximal run of
   * letters, digits and '_'; its kind is the reserved word's kind when the
   * text is in the keyword table, IDENTIFIER otherwise.
   */
  lemma IdentifierToken(src: string, st: LexState, j: nat)
    requires Fresh(st) && st.pos < |src| && IsAlpha(src[st.pos]) && j == IdentifierEnd(src, st.pos)
    ensures var text := src[st.pos..j + 1];
      Step(src, st) == st.(pos := j + 1, tokens := st.tokens + [Token(IdentifierKind(text), text, Nil, st.line)])
  {
    StepIdentifier(src, st);
    assert ScanIdentifier(src, st) == IdentifierUpTo(src, st, j);
    IdentifierUpToIs(src, st, j);
  }

  lemma StepIdentifier(src: string, st: LexState)
    requires Fresh(st) && st.pos < |src| && IsAlpha(src[st.pos])
    ensures Step(src, st) == ScanIdentifier(src, st).(pos := ScanIdentifier(src, st).pos + 1)
  {
  }

  lemma IdentifierUpToIs(src: string, st: LexState, j: nat)
    requires st.pos <= j < |src|
    ensures var text := src[st.pos..j + 1];
      IdentifierUpTo(src, st, j).(pos := j + 1) == st.(pos := j + 1, tokens := st.tokens + [Token(IdentifierKind(text), text, Nil, st.line)])
  {
  }

  /** An identifier lexeme `src[i..j + 1]` is a maximal run of letters, digits and underscores. */
  lemma IdentifierLexeme(src: string, i: nat, j: nat)
    requires i < |src| && IsAlpha(src[i]) && j == IdentifierEnd(src, i)
    ensures forall k :: i <= k <= j ==> IsAlphaNumeric(src[k])
    ensures !IsAlphaNumeric(CharAt(src, j + 1))
  {
    IdentifierEndIsMaximal(src, i);
  }

  // ----------------------------------------------- whitespace, lines, errors

  /** Space, '\r' and '\t' produce nothing; '\n' advances the line and ends a comment. */
  lemma Whitespace(src: string, st: LexState)
    requires !st.skipNext && st.pos < |src| && src[st.pos] in " \r\t\n"
    requires st.comment ==> src[st.pos] == '\n'
    ensures Step(src, st) == if src[st.pos] == '\n' then st.(pos := st.pos + 1, line := st.line + 1, comment := false)
                             else st.(pos := st.pos + 1)
  {
  }

  /** A character the scanner has no rule for. */
  predicate Unexpected(c: char) {
    PunctuationKind(c).None? && c !in "!=<>/\" \r\t\n" && !IsDigit(c) && !IsAlpha(c)
  }

  /**
   * An unexpected character adds one diagnostic with the current line and
   * emits no token; scanning goes on with the next character.
   */
  lemma UnexpectedCharacter(src: string, st: LexState)
    requires Fresh(st) && st.pos < |src| && Unexpected(src[st.pos])
    ensures Step(src, st) == st.(pos := st.pos + 1, errors := st.errors + [LexerSpec.UnexpectedCharacter(st.line, src[st.pos])])
  {
  }

  // ------------------------------------------------------------ examples

  lemma ExampleOperators()
    ensures Scan("!=<").tokens == [Token(BANG_EQUAL, "!=", Nil, 1), Token(LESS, "<", Nil, 1), Token(EOF, "", Nil, 1)]
  {
  }

  lemma ExampleErrorDoesNotAbort()
    ensures Scan("@(") == ScanResult([Token(LEFT_PAREN, "(", Nil, 1), Token(EOF, "", Nil, 1)], true, 1,
                                     [LexerSpec.UnexpectedCharacter(1, '@')])
  {
  }
}
