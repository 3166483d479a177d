/**
 * The scanner of the interpreter, one loop iteration at a time, as functions
 * on its state. The imperative scanner in module Lexer is proved to compute
 * exactly this; the properties of scanning are lemmas in module LexerProps.
 */
module LexerSpec {
  import opened Values
  import opened Tokens
  import opened Keywords
  import opened Decimal

  /** A diagnostic the scanner writes to the error stream; each one counts as one error. */
  datatype LexError = UnexpectedCharacter(line: nat, c: char) | UnterminatedString(line: nat)

  /**
   * The scanner's variables: the cursor, the line counter, the flag that skips
   * the second character of a two-character token, the line-comment flag, the
   * tokens so far and the diagnostics so far.
   */
  datatype LexState = LexState(
    pos: nat, line: nat, skipNext: bool, comment: bool,
    tokens: seq<Token>, errors: seq<LexError>)

  /** What one call of the scanner returns: the tokens, whether there were errors, how many. */
  datatype ScanResult = ScanResult(
    tokens: seq<Token>, hasErrors: bool, errorCount: nat, diagnostics: seq<LexError>)

  /** A fresh scanner: cursor 0, line 1, no flags, nothing emitted. */
  const Initial: LexState := LexState(0, 1, false, false, [], [])

  predicate IsAlpha(c: char) {
    'a' <= c <= 'z' || 'A' <= c <= 'Z' || c == '_'
  }

  predicate IsAlphaNumeric(c: char) {
    IsDigit(c) || IsAlpha(c)
  }

  /** The character at `i`, or '\0' past the end (the source's getCurrentChar/getNextChar). */
  function CharAt(src: string, i: nat): char {
    if i < |src| then src[i] else '\0'
  }

  /** The number of newline characters in `src[i..j]`. */
  function NewlinesIn(src: string, i: nat, j: nat): nat
    requires i <= j <= |src|
    decreases j
  {
    if j == i then 0 else NewlinesIn(src, i, j - 1) + (if src[j - 1] == '\n' then 1 else 0)
  }

  /** The last index of the run of digits that follows index `i`. */
  function DigitRunEnd(src: string, i: nat): (j: nat)
    requires i < |src|
    ensures i <= j < |src|
    decreases |src| - i
  {
    if IsDigit(CharAt(src, i + 1)) then DigitRunEnd(src, i + 1) else i
  }

  /** The last index of the run of letters, digits and '_' that follows index `i`. */
  function IdentifierEnd(src: string, i: nat): (j: nat)
    requires i < |src|
    ensures i <= j < |src|
    decreases |src| - i
  {
    if IsAlphaNumeric(CharAt(src, i + 1)) then IdentifierEnd(src, i + 1) else i
  }

  /**
   * The last index of a number lexeme that starts at `i`: digits, then, if a
   * '.' follows, the '.' and the digits after it.
   */
  function NumberEnd(src: string, i: nat): (j: nat)
    requires i < |src|
    ensures i <= j < |src|
  {
    var k := DigitRunEnd(src, i);
    if CharAt(src, k + 1) == '.' then DigitRunEnd(src, k + 1) else k
  }

  /** The index of the first '"' at or after `i`, or `|src|` when there is none. */
  function StringClose(src: string, i: nat): (k: nat)
    requires i <= |src|
    ensures i <= k <= |src|
    decreases |src| - i
  {
    if i == |src| || src[i] == '"' then i else StringClose(src, i + 1)
  }

  /** The kind an identifier text scans to: its reserved kind, or IDENTIFIER. */
  function IdentifierKind(text: string): TokenKind {
    match Lookup(text)
    case Some(kind) => kind
    case None => IDENTIFIER
  }

  function AddToken(st: LexState, kind: TokenKind, text: string, value: Value): LexState {
    st.(tokens := st.tokens + [Token(kind, text, value, st.line)])
  }

  /**
   * One of `! = < >`: with a following '=' the two-character kind, and the
   * '=' is skipped by the next iteration; otherwise the one-character kind.
   */
  function ScanOperator(src: string, st: LexState, one: TokenKind, two: TokenKind): LexState
    requires st.pos < |src|
  {
    if CharAt(src, st.pos + 1) == '=' then
      AddToken(st, two, [src[st.pos], '='], Nil).(skipNext := true)
    else
      AddToken(st, one, [src[st.pos]], Nil)
  }

  /** A number lexeme; the cursor is left on its last character. */
  function ScanNumber(src: string, st: LexState): LexState
    requires st.pos < |src|
  {
    var end := NumberEnd(src, st.pos);
    var lexeme := src[st.pos..end + 1];
    AddToken(st, NUMBER, lexeme, Num(NumberLiteral(lexeme))).(pos := end)
  }

  /** ScanNumber in terms of the lexeme's last index, as the imperative scanner finds it. */
  lemma ScanNumberAt(src: string, st: LexState, end: nat, lexeme: string)
    requires st.pos <= end < |src| && end == NumberEnd(src, st.pos) && lexeme == src[st.pos..end + 1]
    ensures ScanNumber(src, st) == AddToken(st, NUMBER, lexeme, Num(NumberLiteral(lexeme))).(pos := end)
  {
  }

  /** An identifier or reserved word; the cursor is left on its last character. */
  function ScanIdentifier(src: string, st: LexState): LexState
    requires st.pos < |src|
  {
    IdentifierUpTo(src, st, IdentifierEnd(src, st.pos))
  }

  /** The identifier or reserved word `src[st.pos..end + 1]`, the cursor left on `end`. */
  function IdentifierUpTo(src: string, st: LexState, end: nat): LexState
    requires st.pos <= end < |src|
  {
    var text := src[st.pos..end + 1];
    AddToken(st, IdentifierKind(text), text, Nil).(pos := end)
  }

  /**
   * A string literal opened at the cursor. Every newline inside it advances
   * the line counter. Without a closing quote the cursor ends at the end of
   * the input and an error is recorded instead of a token.
   */
  function ScanString(src: string, st: LexState): LexState
    requires st.pos < |src|
  {
    var close := StringClose(src, st.pos + 1);
    var line := st.line + NewlinesIn(src, st.pos + 1, close);
    if close == |src| then
      st.(pos := close, line := line, errors := st.errors + [UnterminatedString(line)])
    else
      AddToken(st.(pos := close, line := line), STRING, src[st.pos..close + 1], Str(src[st.pos + 1..close]))
  }

  /** ScanString in terms of the closing index and the line reached, as the imperative scanner finds them. */
  lemma ScanStringAt(src: string, st: LexState, close: nat, line: nat)
    requires st.pos < |src| && close == StringClose(src, st.pos + 1)
    requires line == st.line + NewlinesIn(src, st.pos + 1, close)
    ensures close == |src| ==>
      ScanString(src, st) == st.(pos := close, line := line, errors := st.errors + [UnterminatedString(line)])
    ensures close < |src| ==>
      ScanString(src, st) == AddToken(st.(pos := close, line := line), STRING, src[st.pos..close + 1], Str(src[st.pos + 1..close]))
  {
  }

  /** The source's checkCharacter: what the character under the cursor does. */
  function CheckChar(src: string, st: LexState): (r: LexState)
    requires st.pos < |src|
    ensures st.pos <= r.pos <= |src|
  {
    var c := src[st.pos];
    if PunctuationKind(c).Some? then AddToken(st, PunctuationKind(c).value, [c], Nil)
    else match c
      case '!' => ScanOperator(src, st, BANG, BANG_EQUAL)
      case '=' => ScanOperator(src, st, EQUAL, EQUAL_EQUAL)
      case '<' => ScanOperator(src, st, LESS, LESS_EQUAL)
      case '>' => ScanOperator(src, st, GREATER, GREATER_EQUAL)
      case '/' =>
        if CharAt(src, st.pos + 1) == '/' then st.(comment := true, skipNext := true)
        else AddToken(st, SLASH, [c], Nil)
      case '"' => ScanString(src, st)
      case ' ' => st
      case '\r' => st
      case '\t' => st
      case '\n' => st.(line := st.line + 1, comment := false)
      case _ =>
        if IsDigit(c) then ScanNumber(src, st)
        else if IsAlpha(c) then ScanIdentifier(src, st)
        else st.(errors := st.errors + [UnexpectedCharacter(st.line, c)])
  }

  /**
   * One iteration of the main loop: a pending skip is consumed, a character
   * inside a comment other than a newline is dropped, anything else goes
   * through CheckChar; then the cursor moves on.
   */
  function Step(src: string, st: LexState): (r: LexState)
    requires st.pos < |src|
    ensures st.pos < r.pos <= |src| + 1
  {
    if st.skipNext then st.(skipNext := false, pos := st.pos + 1)
    else if st.comment && src[st.pos] != '\n' then st.(pos := st.pos + 1)
    else var r := CheckChar(src, st); r.(pos := r.pos + 1)
  }

  /** The main loop from state `st` until the cursor reaches the end. */
  function Run(src: string, st: LexState): LexState
    decreases |src| - st.pos
  {
    if st.pos >= |src| then st else Run(src, Step(src, st))
  }

  /** One scan of `src` from a fresh scanner, with the EOF token appended after the loop. */
  function Scan(src: string): ScanResult {
    var st := Run(src, Initial);
    ScanResult(st.tokens + [Token(EOF, "", Nil, st.line)], |st.errors| > 0, |st.errors|, st.errors)
  }
}
