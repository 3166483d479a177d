/**
 * The scanner as the source writes it: a cursor that moves over the input
 * while mutable variables collect tokens and count errors. Every method is
 * proved to leave the scanner in the state the matching LexerSpec function
 * computes, so `Tokenize` returns exactly `Scan(source)`.
 */
module Lexer {
  import opened Values
  import opened Tokens
  import opened Decimal
  import opened LexerSpec

  class Scanner {
    const source: string
    var tokens: seq<Token>
    var errorsCount: nat
    var diagnostics: seq<LexError>
    var lineNumber: nat
    var current: nat
    var skipNext: bool
    var comment: bool

    /** The error counter counts the diagnostics written so far. */
    ghost predicate Valid()
      reads this
    {
      errorsCount == |diagnostics|
    }

    /** The scanner's variables as a LexState value. */
    function State(): LexState
      reads this
    {
      LexState(current, lineNumber, skipNext, comment, tokens, diagnostics)
    }

    constructor (source: string)
      ensures this.source == source
      ensures Valid() && State() == Initial
    {
      this.source := source;
      tokens := [];
      errorsCount := 0;
      diagnostics := [];
      lineNumber := 1;
      current := 0;
      skipNext := false;
      comment := false;
    }

    function CurrentChar(): (c: char)
      reads this
      ensures c == CharAt(source, current)
    {
      if current >= |source| then '\0' else source[current]
    }

    function NextChar(): (c: char)
      reads this
      ensures c == CharAt(source, current + 1)
    {
      if current + 1 >= |source| then '\0' else source[current + 1]
    }

    method AddToken(kind: TokenKind, text: string, value: Value)
      modifies this`tokens
      ensures tokens == old(tokens) + [Token(kind, text, value, lineNumber)]
    {
      tokens := tokens + [Token(kind, text, value, lineNumber)];
    }

    /** Whether the next character is `expected`; if so it is marked to be skipped. */
    method Match(expected: char) returns (matched: bool)
      modifies this`skipNext
      ensures matched <==> CharAt(source, current + 1) == expected
      ensures skipNext == (old(skipNext) || matched)
    {
      if NextChar() != expected {
        return false;
      }
      skipNext := true;
      return true;
    }

    /**
     * The loop shared by both halves of a number: while the next character is
     * a digit, move onto it and append it to the lexeme built from `start`.
     */
    method TakeDigits(start: nat, digits: string) returns (r: string)
      requires start <= current < |source| && digits == source[start..current + 1]
      modifies this`current
      ensures current == DigitRunEnd(source, old(current))
      ensures r == source[start..current + 1]
    {
      ghost var from := current;
      r := digits;
      while IsDigit(NextChar())
        invariant from <= current < |source|
        invariant r == source[start..current + 1]
        invariant DigitRunEnd(source, current) == DigitRunEnd(source, from)
        decreases |source| - current
      {
        current := current + 1;
        r := r + [CurrentChar()];
        assert r == source[start..current + 1];
      }
    }

    /**
     * The source's getNumber up to the join: digits, then a '.' and digits
     * when a '.' follows; the cursor stops on the last character taken.
     */
    method TakeNumber() returns (digits: string)
      requires current < |source|
      modifies this`current
      ensures current == NumberEnd(source, old(current))
      ensures digits == source[old(current)..current + 1]
    {
      var start := current;
      digits := [CurrentChar()];
      assert digits == source[start..current + 1];
      digits := TakeDigits(start, digits);
      if NextChar() == '.' {
        current := current + 1;
        digits := digits + [CurrentChar()];
        assert digits == source[start..current + 1];
        digits := TakeDigits(start, digits);
      }
    }

    /** A number token starting at the cursor; the cursor stops on its last character. */
    method ScanNumber()
      requires current < |source|
      modifies this`current, this`tokens
      ensures State() == LexerSpec.ScanNumber(source, old(State()))
    {
      ghost var st := State();
      var lexeme := TakeNumber();
      ScanNumberAt(source, st, current, lexeme);
      AddToken(NUMBER, lexeme, Num(NumberLiteral(lexeme)));
    }

    /**
     * The source's getIdentifier loop: while the next character is a letter,
     * digit or '_', move onto it and append it; returns the characters taken.
     */
    method TakeIdentifier() returns (chars: string)
      requires current < |source|
      modifies this`current
      ensures current == IdentifierEnd(source, old(current))
      ensures chars == source[old(current)..current + 1]
    {
      var start := current;
      chars := [CurrentChar()];
      while IsAlphaNumeric(NextChar())
        invariant start <= current < |source|
        invariant chars == source[start..current + 1]
        invariant IdentifierEnd(source, current) == IdentifierEnd(source, start)
        decreases |source| - current
      {
        current := current + 1;
        chars := chars + [CurrentChar()];
      }
    }

    /** An identifier or reserved word starting at the cursor. */
    method ScanIdentifier()
      requires current < |source|
      modifies this`current, this`tokens
      ensures State() == LexerSpec.ScanIdentifier(source, old(State()))
    {
      var chars := TakeIdentifier();
      AddToken(IdentifierKind(chars), chars, Nil);
      assert State() == IdentifierUpTo(source, old(State()), current);
    }

    /**
     * The body loop of a string literal: move on until a '"' or the end of the
     * input, counting the newlines passed; returns the characters passed.
     */
    method TakeStringBody() returns (chars: string)
      requires current <= |source|
      modifies this`current, this`lineNumber
      ensures current == StringClose(source, old(current))
      ensures chars == source[old(current)..current]
      ensures lineNumber == old(lineNumber) + NewlinesIn(source, old(current), current)
    {
      var start := current;
      chars := [];
      while current < |source| && CurrentChar() != '"'
        invariant start <= current <= |source|
        invariant chars == source[start..current]
        invariant StringClose(source, current) == StringClose(source, start)
        invariant lineNumber == old(lineNumber) + NewlinesIn(source, start, current)
        decreases |source| - current
      {
        var c := CurrentChar();
        chars := chars + [c];
        assert chars == source[start..current + 1];
        if c == '\n' {
          lineNumber := lineNumber + 1;
        }
        current := current + 1;
      }
    }

    /** A string literal opened at the cursor, or an unterminated-string error. */
    method ScanString()
      requires Valid() && current < |source| && source[current] == '"'
      modifies this`current, this`lineNumber, this`tokens, this`diagnostics, this`errorsCount
      ensures Valid() && State() == LexerSpec.ScanString(source, old(State()))
    {
      ghost var before := State();
      var start := current;
      var chars := [CurrentChar()];
      current := current + 1;
      var body := TakeStringBody();
      ScanStringAt(source, before, current, lineNumber);
      chars := chars + body;
      if current == |source| {
        diagnostics := diagnostics + [UnterminatedString(lineNumber)];
        errorsCount := errorsCount + 1;
        return;
      }
      chars := chars + [CurrentChar()];
      assert chars == source[start..current + 1];
      assert chars[1..|chars| - 1] == body;
      AddToken(STRING, chars, Str(chars[1..|chars| - 1]));
    }

    /**
     * One of `! = < >`: the kind is chosen by one lookahead and the text by a
     * second one, as the source does; both see the same next character.
     */
    method ScanOperator(one: TokenKind, two: TokenKind)
      requires current < |source|
      modifies this`skipNext, this`tokens
      ensures State() == LexerSpec.ScanOperator(source, old(State()), one, two)
    {
      var c := source[current];
      var isTwo := Match('=');
      var equal := Match('=');
      assert equal == isTwo;
      var text := [c] + (if equal then "=" else "");
      assert text == if isTwo then [source[old(current)], '='] else [source[old(current)]];
      AddToken(if isTwo then two else one, text, Nil);
    }

    /** The source's checkCharacter for the character under the cursor. */
    method CheckCharacter()
      requires Valid() && current < |source|
      modifies this
      ensures Valid() && State() == CheckChar(source, old(State()))
    {
      var c := source[current];
      if PunctuationKind(c).Some? {
        AddToken(PunctuationKind(c).value, [c], Nil);
        return;
      }
      match c
      case '!' => ScanOperator(BANG, BANG_EQUAL);
      case '=' => ScanOperator(EQUAL, EQUAL_EQUAL);
      case '<' => ScanOperator(LESS, LESS_EQUAL);
      case '>' => ScanOperator(GREATER, GREATER_EQUAL);
      case '/' =>
        var slash := Match('/');
        if slash {
          comment := true;
        } else {
          AddToken(SLASH, [c], Nil);
        }
      case '"' => ScanString();
      case ' ' =>
      case '\r' =>
      case '\t' =>
      case '\n' =>
        lineNumber := lineNumber + 1;
        comment := false;
      case _ =>
        if IsDigit(c) {
          ScanNumber();
        } else if IsAlpha(c) {
          ScanIdentifier();
        } else {
          diagnostics := diagnostics + [UnexpectedCharacter(lineNumber, c)];
          errorsCount := errorsCount + 1;
        }
    }
  }

  /** The source's tokenizeCommand on a fresh scanner: the main loop, then EOF. */
  method Tokenize(source: string) returns (r: ScanResult)
    ensures r == Scan(source)
    ensures r.hasErrors <==> r.errorCount > 0
    ensures r.errorCount == |r.diagnostics|
    ensures |r.tokens| >= 1 && r.tokens[|r.tokens| - 1].kind == EOF
  {
    var s := new Scanner(source);
    while s.current < |source|
      invariant s.source == source && s.Valid()
      invariant Run(source, s.State()) == Run(source, Initial)
      decreases |source| - s.current
    {
      ghost var before := s.State();
      if s.skipNext {
        s.skipNext := false;
      } else if s.comment && source[s.current] != '\n' {
      } else {
        s.CheckCharacter();
      }
      s.current := s.current + 1;
      assert s.State() == Step(source, before);
    }
    s.AddToken(EOF, "", Nil);
    r := ScanResult(s.tokens, s.errorsCount > 0, s.errorsCount, s.diagnostics);
  }
}
