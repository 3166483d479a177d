/**
 * The earlier, line-by-line tokenizer: it splits the source on newlines and
 * classifies every character of every line on its own. The ten punctuation
 * characters become tokens, space and carriage return are skipped, and every
 * other character (a tab, a letter, a digit, `/`, `=`, ...) is reported as
 * unexpected with its 1-based line number.
 *
 * The token list and the error counter are module-level state in the source
 * and are never reset, so the class keeps them as fields and every call
 * appends to them.
 */
module LegacyTokenizer {
  import opened Options
  import opened Tokens
  import opened Strings

  /** A token of this tokenizer: its kind and its text; the value is always null. */
  datatype LegacyToken = LegacyToken(kind: TokenKind, text: string)

  /** One "Unexpected character" report: the line and the character. */
  datatype UnexpectedChar = UnexpectedChar(line: nat, character: char)

  /** The end-of-file token appended after the last line. */
  const EofToken := LegacyToken(EOF, "")

  // ------------------------------------------------------------ the lines

  /** `s.split("\n")`: the pieces between newlines, one more than there are newlines. */
  function Split(s: string): (r: seq<string>)
    ensures |r| >= 1
    ensures forall i :: 0 <= i < |r| ==> '\n' !in r[i]
    decreases |s|
  {
    var k := IndexOf(s, '\n');
    if k == |s| then [s] else [s[..k]] + Split(s[k + 1..])
  }

  /** The lines put back together with a newline between each two. */
  function Join(lines: seq<string>): string {
    if |lines| == 0 then ""
    else if |lines| == 1 then lines[0]
    else lines[0] + "\n" + Join(lines[1..])
  }

  // ------------------------------------------------- one character at a time

  /** The characters `checkCharacter` passes over without a token or an error. */
  predicate Skipped(c: char) {
    c == ' ' || c == '\n' || c == '\r'
  }

  /** The characters `checkCharacter` reports as unexpected. */
  predicate Rejected(c: char) {
    PunctuationKind(c).None? && !Skipped(c)
  }

  /** The token a character adds: one for punctuation, none otherwise. */
  function CharTokens(c: char): seq<LegacyToken> {
    match PunctuationKind(c)
    case Some(kind) => [LegacyToken(kind, [c])]
    case None => []
  }

  /** The report a character adds on line `line`. */
  function CharErrors(c: char, line: nat): seq<UnexpectedChar> {
    if Rejected(c) then [UnexpectedChar(line, c)] else []
  }

  /** The tokens of one line, in order. */
  function LineTokens(s: string): seq<LegacyToken> {
    if s == [] then [] else LineTokens(s[..|s| - 1]) + CharTokens(s[|s| - 1])
  }

  /** The reports of one line, numbered `line`. */
  function LineErrors(s: string, line: nat): seq<UnexpectedChar> {
    if s == [] then [] else LineErrors(s[..|s| - 1], line) + CharErrors(s[|s| - 1], line)
  }

  /** The tokens of a sequence of lines. */
  function LinesTokens(lines: seq<string>): seq<LegacyToken> {
    if lines == [] then [] else LinesTokens(lines[..|lines| - 1]) + LineTokens(lines[|lines| - 1])
  }

  /** The reports of a sequence of lines, the first numbered 1. */
  function LinesErrors(lines: seq<string>): seq<UnexpectedChar> {
    if lines == [] then [] else LinesErrors(lines[..|lines| - 1]) + LineErrors(lines[|lines| - 1], |lines|)
  }

  /** The tokens one call of `tokenizeCommand` adds: every line's, then EOF. */
  function Tokenized(src: string): seq<LegacyToken> {
    LinesTokens(Split(src)) + [EofToken]
  }

  lemma AppendAssoc<T>(a: seq<T>, b: seq<T>, c: seq<T>)
    ensures a + b + c == a + (b + c)
  {
  }

  lemma LineStep(line: string, j: nat, n: nat)
    requires j < |line|
    ensures LineTokens(line[..j + 1]) == LineTokens(line[..j]) + CharTokens(line[j])
    ensures LineErrors(line[..j + 1], n) == LineErrors(line[..j], n) + CharErrors(line[j], n)
  {
    assert line[..j + 1][..j] == line[..j];
  }

  lemma LinesStep(lines: seq<string>, i: nat)
    requires i < |lines|
    ensures LinesTokens(lines[..i + 1]) == LinesTokens(lines[..i]) + LineTokens(lines[i])
    ensures LinesErrors(lines[..i + 1]) == LinesErrors(lines[..i]) + LineErrors(lines[i], i + 1)
  {
    assert lines[..i + 1][..i] == lines[..i];
  }

  /** The module-level `tokens` array and `errorsCount`, with the reports sent to the logger. */
  class LegacyScanner {
    var tokens: seq<LegacyToken>
    var errorsCount: nat
    var reports: seq<UnexpectedChar>

    constructor ()
      ensures tokens == [] && errorsCount == 0 && reports == []
    {
      tokens := [];
      errorsCount := 0;
      reports := [];
    }

    /**
     * Runs over the lines and their characters, appends the EOF token and
     * returns the whole token array, earlier calls' tokens included.
     */
    method TokenizeCommand(fileContent: string) returns (r: seq<LegacyToken>)
      modifies this
      ensures tokens == old(tokens) + Tokenized(fileContent)
      ensures reports == old(reports) + LinesErrors(Split(fileContent))
      ensures errorsCount == old(errorsCount) + |LinesErrors(Split(fileContent))|
      ensures r == tokens
    {
      var lines := Split(fileContent);
      var lineNumber := 0;
      for i := 0 to |lines|
        invariant lineNumber == i
        invariant tokens == old(tokens) + LinesTokens(lines[..i])
        invariant reports == old(reports) + LinesErrors(lines[..i])
        invariant errorsCount == old(errorsCount) + |LinesErrors(lines[..i])|
      {
        var line := lines[i];
        lineNumber := lineNumber + 1;
        ghost var tokens0, reports0, count0 := tokens, reports, errorsCount;
        for j := 0 to |line|
          invariant tokens == tokens0 + LineTokens(line[..j])
          invariant reports == reports0 + LineErrors(line[..j], lineNumber)
          invariant errorsCount == count0 + |LineErrors(line[..j], lineNumber)|
        {
          CheckCharacter(line[j], lineNumber);
          LineStep(line, j, lineNumber);
          AppendAssoc(tokens0, LineTokens(line[..j]), CharTokens(line[j]));
          AppendAssoc(reports0, LineErrors(line[..j], lineNumber), CharErrors(line[j], lineNumber));
        }
        assert line[..|line|] == line;
        LinesStep(lines, i);
        AppendAssoc(old(tokens), LinesTokens(lines[..i]), LineTokens(lines[i]));
        AppendAssoc(old(reports), LinesErrors(lines[..i]), LineErrors(lines[i], i + 1));
      }
      assert lines[..|lines|] == lines;
      AddToken(EOF, "");
      r := tokens;
    }

    /** A token for punctuation, nothing for space, newline and carriage return, a report otherwise. */
    method CheckCharacter(character: char, lineNumber: nat)
      modifies this
      ensures tokens == old(tokens) + CharTokens(character)
      ensures reports == old(reports) + CharErrors(character, lineNumber)
      ensures errorsCount == old(errorsCount) + |CharErrors(character, lineNumber)|
    {
      match PunctuationKind(character)
      case Some(kind) =>
        AddToken(kind, [character]);
      case None =>
        if !Skipped(character) {
          reports := reports + [UnexpectedChar(lineNumber, character)];
          errorsCount := errorsCount + 1;
        }
    }

    method AddToken(kind: TokenKind, text: string)
      modifies this
      ensures tokens == old(tokens) + [LegacyToken(kind, text)]
      ensures errorsCount == old(errorsCount) && reports == old(reports)
    {
      tokens := tokens + [LegacyToken(kind, text)];
    }
  }
}
