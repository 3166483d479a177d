# A verified model of a small Lox-style interpreter

This project models, in Dafny, the core of a JavaScript interpreter for a
Lox-like expression language. The interpreter has three commands, `tokenize`,
`parse` and `evaluate`, and the model covers what sits behind them:

- **The scanner** (`app/commands/tokenize-command.js`). It makes one pass over
  the source text. It handles one- and two-character operators, `//` comments,
  numbers, strings, identifiers and reserved words. It counts lines and
  reports unexpected characters and unterminated strings without stopping.
  - `LexerSpec` gives one iteration of its main loop as a function on a state
    value.
  - `Lexer.Scanner` is the imperative scanner. It is a class whose fields are
    the source's module-level variables, and each method is proved to reach
    the state `LexerSpec` computes.
  - `LexerProps` states what a scan promises.
- **The reserved-word table** (`app/constants/keywords.js`): module
  `Keywords`.
- **The earlier, line-by-line tokenizer** (`app/tokenize-command.js`). It
  splits the text on newlines and classifies every character on its own.
  - `LegacyTokenizer.LegacyScanner` keeps the source's never-reset token
    array and error counter as fields.
  - `LegacyProps` relates the tokens and reports to the whole text.
- **The recursive-descent expression parser**
  (`app/commands/parse-command.js`).
  - `Parser` defines it as functions over the token sequence and an index.
  - The same module also gives it as looping methods.
  - `ParserProps` characterises exactly which tree the parser returns.
- **The scope stack** (`app/utils/enviroment.js`).
  - `Environment.ScopeStack` holds the stack of maps and changes it in place.
  - The functions of `Environment` give the meaning of each operation.
  - `EnvironmentProps` proves what `define`, `assign` and `get` promise.
- **The tree-walking evaluator** (`app/commands/evaluate-command.js`).
  - `Evaluator.Eval` gives the value (or runtime error) of a tree together
    with the scope stack afterwards.
  - `Evaluator.Interpreter.Evaluate` evaluates in place on a `ScopeStack` and
    is proved to agree with `Eval`.
  - `EvaluatorProps` states the operator rules, the evaluation order and
    short-circuiting.
- **The tree printer** (`app/utils/ast-printer.js`).
  - `AstPrinter` renders a tree.
  - `PrinterNumbers` proves that the number text reads back as the same
    number.
  - `PrinterProps` proves that every tree the parser builds prints.

Numbers are exact `real`s rather than IEEE doubles. Strings are `seq<char>`.

## Behaviour of the code worth knowing

- After a run of digits, a `.` is always taken into the number lexeme, even
  when no digit follows. So `1.` is one NUMBER token `1.` with value 1, not a
  number followed by DOT.
- An unterminated string is reported on the line the scanner has reached,
  which is the last line, not the line where the string opened.
- A call evaluates the callee and all its arguments first. Only after that
  does it check that the callee is callable and that the argument count
  matches.
- The scanner skips a tab, but the line-by-line tokenizer reports it as an
  unexpected character.

## Model

| member | source | states |
|---|---|---|
| Tokens.PunctuationKind | app/commands/tokenize-command.js:38-67 | The ten single-character tokens `( ) { } , . - + ; *` and their kinds. No character maps to EOF. |
| Keywords.KeywordCases | app/constants/keywords.js:3-20 | Every key of the reserved-word table is one of the sixteen words. |
| Keywords.KeywordCount | app/constants/keywords.js:3-20 | The table has exactly sixteen entries. |
| Keywords.ReservedWordsDistinct | app/constants/keywords.js:3-20 | The sixteen words are pairwise different. |
| Keywords.KeywordKindIsUpperCasedWord | app/constants/keywords.js:3-20 | Each reserved word maps to the token kind whose printed name is the word upper-cased. |
| Keywords.KeywordsInjective | app/constants/keywords.js:3-20 | No two reserved words share a token kind. |
| Keywords.ReservedWordOfLookup | app/constants/keywords.js:3-20 | The kind found for a word is spelt with exactly that word, so lookup can be inverted. |
| Keywords.KeywordCasesOfLookup | app/commands/tokenize-command.js:143-146 | The lookup the scanner performs succeeds only for the sixteen words. |
| Keywords.LookupIsExact | app/commands/tokenize-command.js:143-146 | The lookup is by exact text: `And`, `nill`, `While` and the empty text are not reserved. |
| Keywords.LookupAgreesWithTable | app/commands/tokenize-command.js:143-146 | The scanner's lookup returns the table's kind for a key and nothing for any other text. |
| Keywords.LookupKinds | app/commands/tokenize-command.js:143-146 | A lookup never yields EOF, IDENTIFIER, NUMBER or STRING. |
| Keywords.KeywordKinds | app/constants/keywords.js:3-20 | No table entry is EOF, IDENTIFIER, NUMBER or STRING. |
| Decimal.NumberLiteralOfParts | app/commands/tokenize-command.js:167-168 | `parseFloat` of a lexeme `a.f` gives the integer value of `a` plus the digits `f` read as a fraction. |
| Decimal.NumberLiteralOfDigits | app/commands/tokenize-command.js:167-168 | `parseFloat` of a digits-only lexeme gives its integer value. |
| Decimal.IntTextValue | app/utils/ast-printer.js:16-18 | Reading back the decimal text of a natural number gives that number. |
| Decimal.PadDigitsValue | app/utils/ast-printer.js:16-18 | Reading back `k` zero-padded digits of a number below 10^k gives that number. |
| LexerSpec.DigitRunEnd | app/commands/tokenize-command.js:153-156 | The last index of the digit run that follows a position. Every index up to it is a digit. |
| LexerSpec.IdentifierEnd | app/commands/tokenize-command.js:137-140 | The last index of the run of letters, digits and `_` after a position. Every index up to it is alphanumeric. |
| LexerSpec.NumberEnd | app/commands/tokenize-command.js:150-165 | The last index of a number lexeme: at or after the digit run, and past the `.` exactly when a `.` follows the digits. |
| LexerSpec.StringClose | app/commands/tokenize-command.js:178-183 | The first `"` at or after a position, or the end of the text; no quote comes before it. |
| LexerSpec.ScanNumberAt | app/commands/tokenize-command.js:150-171 | The number step in terms of the lexeme's last index: one NUMBER token with the lexeme and its `parseFloat` value, and the cursor left on the last character. |
| LexerSpec.ScanStringAt | app/commands/tokenize-command.js:174-195 | The string step in terms of the closing index and the line reached. A STRING token holds the text between the quotes. Without a closing quote there is an error at the line reached and no token. |
| LexerSpec.CheckChar | app/commands/tokenize-command.js:36-118 | One `checkCharacter`. It never moves the cursor backwards and leaves it within the text. |
| LexerSpec.Step | app/commands/tokenize-command.js:18-25 | One iteration of the main loop. A pending skip is consumed, a commented character other than a newline is dropped, and any other character goes through `checkCharacter`. The cursor always advances, and ends at most one past the end of the text. |
| Lexer.Scanner.constructor | app/commands/tokenize-command.js:8-16 | A fresh scanner: cursor 0, line 1, no flags, no tokens, no errors. |
| Lexer.Scanner.CurrentChar | app/commands/tokenize-command.js:210-213 | The character at the cursor, or `\0` past the end. |
| Lexer.Scanner.NextChar | app/commands/tokenize-command.js:215-218 | The character after the cursor, or `\0` past the end. |
| Lexer.Scanner.AddToken | app/commands/tokenize-command.js:205-207 | Appends one token carrying the current line; nothing else changes. |
| Lexer.Scanner.Match | app/commands/tokenize-command.js:198-202 | Answers whether the next character is the expected one. If it is, it sets the skip flag. |
| Lexer.Scanner.TakeDigits | app/commands/tokenize-command.js:153-156 | The digit loop stops on the last digit of the run and returns the lexeme from the start up to it. |
| Lexer.Scanner.TakeNumber | app/commands/tokenize-command.js:150-165 | Reads digits, an optional `.` and more digits. It stops at `NumberEnd` and returns exactly that slice of the source. |
| Lexer.Scanner.ScanNumber | app/commands/tokenize-command.js:150-171 | Reaches exactly the state `LexerSpec.ScanNumber` gives. |
| Lexer.Scanner.TakeIdentifier | app/commands/tokenize-command.js:134-141 | Stops at `IdentifierEnd` and returns exactly that slice. |
| Lexer.Scanner.ScanIdentifier | app/commands/tokenize-command.js:134-148 | Reaches exactly the state `LexerSpec.ScanIdentifier` gives: a reserved word's kind, or IDENTIFIER. |
| Lexer.Scanner.TakeStringBody | app/commands/tokenize-command.js:174-183 | Stops at the closing quote or at the end. Returns the text in between, and the line advances by the newlines in it. |
| Lexer.Scanner.ScanString | app/commands/tokenize-command.js:174-195 | Reaches exactly the state `LexerSpec.ScanString` gives. |
| Lexer.Scanner.ScanOperator | app/commands/tokenize-command.js:68-83 | `! = < >` give the two-character kind when `=` follows, otherwise the one-character kind, as `LexerSpec.ScanOperator`. |
| Lexer.Scanner.CheckCharacter | app/commands/tokenize-command.js:36-118 | Reaches exactly the state `LexerSpec.CheckChar` gives. |
| Lexer.Tokenize | app/commands/tokenize-command.js:14-34 | Equals the specification `Scan`. `hasErrors` holds exactly when the count is positive. The count equals the number of diagnostics. The last token is EOF. |
| LexerProps.RunStep | app/commands/tokenize-command.js:18-25 | Before the end, the main loop is one step followed by the rest of the loop. |
| LexerProps.RunAtEnd | app/commands/tokenize-command.js:18-25 | At the end, the main loop changes nothing. |
| LexerProps.StepInComment | app/commands/tokenize-command.js:23 | Inside a comment, a character other than a newline only moves the cursor. |
| LexerProps.StepNewline | app/commands/tokenize-command.js:96-99 | A newline advances the line and ends a comment. |
| LexerProps.StepNoEof | app/commands/tokenize-command.js:36-118 | No character ever produces an EOF token. |
| LexerProps.RunNoEof | app/commands/tokenize-command.js:18-25 | The main loop never emits EOF. |
| LexerProps.ScanEndsWithOneEof | app/commands/tokenize-command.js:27 | The token list ends with exactly one EOF token, carrying the final line, whatever the input. |
| LexerProps.ScanEmpty | app/commands/tokenize-command.js:14-34 | The empty text scans to a lone EOF on line 1, without errors. |
| LexerProps.RunOnlyAppends | app/commands/tokenize-command.js:18-25 | Scanning only appends. Tokens and diagnostics already emitted stay, in order. |
| LexerProps.StepOnlyAppends | app/commands/tokenize-command.js:36-118 | One step only appends. |
| LexerProps.PunctuationTokens | app/commands/tokenize-command.js:38-67 | The tokens of a punctuation-only text: one per character, of its kind, with the character as lexeme. |
| LexerProps.StepPunctuation | app/commands/tokenize-command.js:38-67 | A punctuation character yields exactly one token of its kind. |
| LexerProps.RunPunctuation | app/commands/tokenize-command.js:38-67 | A run of punctuation yields one token per character, in order. |
| LexerProps.ScanPunctuation | app/commands/tokenize-command.js:14-67 | A punctuation-only text scans to one token per character on line 1, then EOF, without errors. |
| LexerProps.TwoCharacterOperator | app/commands/tokenize-command.js:68-83 | `!=`, `==`, `<=`, `>=` give one two-character token, and the `=` is not scanned again. |
| LexerProps.OneCharacterOperator | app/commands/tokenize-command.js:68-83 | Without a following `=`, `! = < >` give their one-character token. |
| LexerProps.CommentRunsToLineEnd | app/commands/tokenize-command.js:23 | Inside a comment, everything up to the next newline is dropped. That newline ends the comment and advances the line. |
| LexerProps.LineComment | app/commands/tokenize-command.js:84-88 | `//` discards the rest of its line, and scanning resumes after the newline, one line further on. |
| LexerProps.CommentStart | app/commands/tokenize-command.js:84-88 | `//` sets the comment flag and the second `/` is skipped. |
| LexerProps.Slash | app/commands/tokenize-command.js:84-90 | A lone `/` is the SLASH token. |
| LexerProps.DigitRunEndIsMaximal | app/commands/tokenize-command.js:153-156 | The digit run cannot be extended. |
| LexerProps.NumberLexeme | app/commands/tokenize-command.js:150-165 | A number lexeme is a maximal digit run. When a `.` follows, the lexeme also takes that `.` and the maximal digit run after it, which may be empty. |
| LexerProps.NumberLexemeValue | app/commands/tokenize-command.js:167-168 | The literal of a number lexeme is the integer part plus the fraction digits read as a fraction. |
| LexerProps.NumberToken | app/commands/tokenize-command.js:150-171 | A digit starts a NUMBER token ending at `NumberEnd`, and scanning resumes after it. |
| LexerProps.StepNumber | app/commands/tokenize-command.js:105-106 | A digit is handed to the number scanner. |
| LexerProps.StringCloseIsFirstQuote | app/commands/tokenize-command.js:178 | The closing index is the first quote, or the end when there is none. |
| LexerProps.StepString | app/commands/tokenize-command.js:91-93 | A `"` is handed to the string scanner. |
| LexerProps.TerminatedString | app/commands/tokenize-command.js:174-195 | A closed string gives a STRING token from quote to quote whose literal is the text in between. The line advances by the newlines inside, and scanning resumes after the closing quote. |
| LexerProps.StringLexeme | app/commands/tokenize-command.js:191-193 | The lexeme of a closed string is a quote, a quote-free text and a quote. |
| LexerProps.UnterminatedString | app/commands/tokenize-command.js:185-189 | Without a closing quote there is one error at the line reached, no token, and the scan ends. |
| LexerProps.IdentifierEndIsMaximal | app/commands/tokenize-command.js:137-140 | The identifier run cannot be extended. |
| LexerProps.IdentifierToken | app/commands/tokenize-command.js:134-148 | A letter or `_` starts a token spanning the maximal alphanumeric run. Its kind is the reserved kind for a table word, IDENTIFIER otherwise. |
| LexerProps.StepIdentifier | app/commands/tokenize-command.js:108-109 | A letter or `_` is handed to the identifier scanner. |
| LexerProps.IdentifierLexeme | app/commands/tokenize-command.js:134-141 | An identifier lexeme is a maximal run of letters, digits and `_`. |
| LexerProps.Whitespace | app/commands/tokenize-command.js:94-103 | Space, `\r` and `\t` produce nothing. `\n` advances the line and ends a comment. |
| LexerProps.UnexpectedCharacter | app/commands/tokenize-command.js:104-115 | Any other character adds one diagnostic on the current line, emits no token, and does not stop the scan. |
| LexerProps.ExampleOperators | app/commands/tokenize-command.js:68-83 | `!=<` scans to BANG_EQUAL, LESS, EOF. |
| LexerProps.ExampleErrorDoesNotAbort | app/commands/tokenize-command.js:111-115 | `@(` reports one error and still yields LEFT_PAREN and EOF. |
| Strings.IndexOf | app/tokenize-command.js:9 | The first position of a separator character, or the end of the text; no earlier position holds it. |
| LegacyTokenizer.Split | app/tokenize-command.js:9 | `split("\n")`: at least one piece, and no piece holds a newline. |
| LegacyTokenizer.LegacyScanner.constructor | app/tokenize-command.js:5-6 | The module starts with no tokens and an error count of 0. |
| LegacyTokenizer.LegacyScanner.TokenizeCommand | app/tokenize-command.js:8-22 | Appends every line's tokens and then EOF to the never-cleared token array. Appends one report per rejected character, numbered by line from 1, and raises the counter by as much. Returns the whole array. |
| LegacyTokenizer.LegacyScanner.CheckCharacter | app/tokenize-command.js:24-67 | Punctuation adds its token. Space, `\n` and `\r` add nothing. Anything else adds a report and counts one error. |
| LegacyTokenizer.LegacyScanner.AddToken | app/tokenize-command.js:69-71 | Appends one token and changes nothing else. |
| LegacyProps.SplitJoin | app/tokenize-command.js:9 | Splitting on newlines loses nothing: joining the pieces with newlines gives the text back. |
| LegacyProps.LinesTokensJoin | app/tokenize-command.js:9-17 | The tokens of the lines are the tokens of the whole text, because newlines add none. |
| LegacyProps.TokenCount | app/tokenize-command.js:8-22 | One call adds one token per punctuation character of the text, then EOF. |
| LegacyProps.ReportCount | app/tokenize-command.js:62-66 | One call adds one report, and one error, per rejected character of the text. |
| LegacyProps.TokenShape | app/tokenize-command.js:24-55 | The last token is EOF with empty text. Every other token is one punctuation character of the text with that character's kind. |
| LegacyProps.ReportsLocated | app/tokenize-command.js:12-17 | Every report names a rejected character and the 1-based number of a line that contains it. |
| LegacyProps.TabIsUnexpected | app/tokenize-command.js:62-66 | A tab is reported and gives no token. |
| LegacyProps.ParenThenTabTokens | app/tokenize-command.js:8-22 | `(`, a newline and a tab give LEFT_PAREN then EOF. |
| LegacyProps.ParenThenTabReports | app/tokenize-command.js:8-22 | ... and one report, for the tab on line 2. |
| Parser.Expression | app/commands/parse-command.js:14-16 | On success the parse consumes at least one token and stops before the end of the sequence. |
| Parser.BinaryLevel | app/commands/parse-command.js:19-98 | One binary level (equality, comparison, term, factor) consumes at least one token and stops before the end. |
| Parser.Operand | app/commands/parse-command.js:19-98 | The operand production of a level: the next level, or `unary` under `factor`. |
| Parser.LevelTail | app/commands/parse-command.js:23-34 | The operator loop never moves backwards and stops before the end. |
| Parser.UnaryLevel | app/commands/parse-command.js:100-115 | `unary` consumes at least one token on success. |
| Parser.Primary | app/commands/parse-command.js:118-164 | `primary` consumes at least one token on success. |
| Parser.MatchNotAtEnd | app/commands/parse-command.js:174-190 | A token that matches is not EOF, so another token follows it. |
| Parser.ParseExpression | app/commands/parse-command.js:14-16 | The looping parser returns exactly what `Expression` defines. |
| Parser.ParseLevel | app/commands/parse-command.js:19-98 | The `while` loop of each level returns exactly what `BinaryLevel` defines. |
| Parser.ParseOperand | app/commands/parse-command.js:19-98 | Returns exactly what `Operand` defines. |
| ParserProps.OpLevel | app/commands/parse-command.js:19-98 | The level an operator kind belongs to; 0 for a kind that is no binary operator. |
| ParserProps.OperatorsOfLevel | app/commands/parse-command.js:19-98 | Each level's loop matches exactly the operators of that level. |
| ParserProps.MatchIsSomeCheck | app/commands/parse-command.js:174-181 | `match` holds exactly when one of the listed kinds checks. |
| ParserProps.LevelTailContinues | app/commands/parse-command.js:23-34 | On an operator of its level, the loop makes `Binary(left, op, right)` the new left operand and goes round again. |
| ParserProps.LevelTailStops | app/commands/parse-command.js:23-36 | On any other token the loop returns the tree built so far. |
| ParserProps.UnaryApplies | app/commands/parse-command.js:101-111 | `!` or `-` wraps the following unary in a unary node. |
| ParserProps.UnaryIsPrimary | app/commands/parse-command.js:114 | Without `!` or `-`, `unary` is `primary`. |
| ParserProps.PrimaryLiteral | app/commands/parse-command.js:119-151 | `false`, `true`, `nil`, numbers and strings become literals with the token's value. |
| ParserProps.PrimaryGroup | app/commands/parse-command.js:153-163 | `(` expression `)` becomes a grouping. |
| ParserProps.PrimaryUnclosedGroup | app/commands/parse-command.js:157 | A group without `)` fails at the token where `consume` expected it. |
| ParserProps.PrimaryNoExpression | app/commands/parse-command.js:118-164 | A token that starts no expression is a failure at that token. |
| ParserProps.BinaryLevelFinds | app/commands/parse-command.js:19-98 | A level returns a canonical tree that the tokens spell, when the token after it ends the level. |
| ParserProps.BinaryLevelShape | app/commands/parse-command.js:19-98 | Whatever a level returns is a canonical tree spelled by the tokens it consumed, and the next token ends the level. |
| ParserProps.ExpressionExactly | app/commands/parse-command.js:14-164 | The parse returns `e` if and only if `e` is canonical (precedence and left-associativity respected), the tokens spell it, and the following token is not a binary operator. |
| ParserProps.SpelledHasNoEof | app/commands/parse-command.js:183-190 | No token of a spelled tree is EOF. |
| ParserProps.NeverPastEof | app/commands/parse-command.js:183-190 | A parse never steps over EOF. |
| ParserProps.LeftmostFailure | app/commands/parse-command.js:19-98 | A failure in the leftmost unary is the failure of every level above it. |
| ParserProps.FactorBindsTighter | app/commands/parse-command.js:60-98 | `1 + 2 * 3` reads as `1 + (2 * 3)`. |
| ParserProps.TermIsLeftAssociative | app/commands/parse-command.js:60-78 | `10 - 2 - 3` reads as `(10 - 2) - 3`. |
| ParserProps.UnaryNests | app/commands/parse-command.js:100-115 | `!!true` reads as `!(!true)`. |
| ParserProps.MissingRightParen | app/commands/parse-command.js:153-172 | `(1` fails at EOF, where `)` was expected. |
| Environment.FindBelow | app/utils/enviroment.js:30-34 | The descending search finds the topmost scope that binds the name; nothing above it does. With no match, no scope binds the name. |
| Environment.ScopeStack.constructor | app/utils/enviroment.js:4 | One empty global scope. |
| Environment.ScopeStack.CreateInnerEnv | app/utils/enviroment.js:7-9 | Pushes an empty scope. |
| Environment.ScopeStack.DestroyInnerEnv | app/utils/enviroment.js:11-13 | Pops the top scope; an empty stack stays empty. |
| Environment.ScopeStack.Define | app/utils/enviroment.js:15-17 | Binds the name in the top scope. Fails, changing nothing, exactly when the stack is empty. |
| Environment.ScopeStack.Assign | app/utils/enviroment.js:19-27 | Succeeds exactly when some scope binds the name, and then rewrites the innermost such binding. Otherwise nothing changes. |
| Environment.ScopeStack.Get | app/utils/enviroment.js:29-36 | Returns what `Lookup` gives: the innermost binding, or nothing where the source throws. |
| EnvironmentProps.LookupIsInnermost | app/utils/enviroment.js:29-36 | `get` returns `v` if and only if some scope binds the name to `v` and no scope above it binds the name. |
| EnvironmentProps.UndefinedName | app/utils/enviroment.js:19-36 | A name is undefined for `get` exactly when no scope binds it, and `assign` fails exactly then. |
| EnvironmentProps.GlobalIsEmpty | app/utils/enviroment.js:4 | A fresh interpreter has one scope and no bindings. |
| EnvironmentProps.DefineThenGet | app/utils/enviroment.js:15-17 | After `define(n, v)`, `get(n)` returns `v`. |
| EnvironmentProps.DefineLeavesOthers | app/utils/enviroment.js:15-17 | `define` keeps the depth and every other name's binding. |
| EnvironmentProps.AssignOnlyInnermost | app/utils/enviroment.js:19-27 | A successful `assign` makes `get` return the new value, changes only the innermost scope that binds the name, and adds no name. |
| EnvironmentProps.AssignLeavesOthers | app/utils/enviroment.js:19-27 | `assign` keeps every other name's binding. |
| EnvironmentProps.PushKeepsBindings | app/utils/enviroment.js:7-9 | A pushed scope is empty, so every binding stays visible. |
| EnvironmentProps.InnerDefinitionShadows | app/utils/enviroment.js:7-17 | A definition in a pushed scope shadows the outer one. |
| EnvironmentProps.PushDefinePop | app/utils/enviroment.js:7-17 | Create, define and destroy give the stack back, and the outer binding is visible again. |
| EnvironmentProps.LookupSameBinding | app/utils/enviroment.js:29-36 | `get` depends only on where and how that name is bound. |
| Evaluator.Eval | app/commands/evaluate-command.js:19-40 | Evaluation never adds, removes or moves a binding: the stack keeps its depth and each scope its names. |
| Evaluator.EvalArguments | app/commands/evaluate-command.js:45-49 | On success there is one value per argument, and the stack keeps its shape. |
| Evaluator.AssignedKeepsShape | app/commands/evaluate-command.js:182-192 | A successful assignment keeps each scope's set of names. |
| Evaluator.Interpreter.constructor | app/commands/evaluate-command.js:5 | The interpreter works on the given scope stack. |
| Evaluator.Interpreter.Evaluate | app/commands/evaluate-command.js:19-40 | Evaluating in place gives the outcome and the new stack that `Eval` defines. |
| Evaluator.Interpreter.EvaluateArguments | app/commands/evaluate-command.js:45-49 | The argument loop gives what `EvalArguments` defines. |
| EvaluatorProps.TruthinessRule | app/commands/evaluate-command.js:208-212 | Only `nil` and `false` are falsy, and `!` answers the opposite of truthiness. |
| EvaluatorProps.NegationNeedsNumber | app/commands/evaluate-command.js:78-82 | Unary minus negates a number and is an error on anything else. |
| EvaluatorProps.EqualityNeverFails | app/commands/evaluate-command.js:97-101 | `==` and `!=` compare any two values and never fail. |
| EvaluatorProps.OrderingOperandTypes | app/commands/evaluate-command.js:103-121 | The comparisons and `+` succeed exactly on two numbers or two strings, and otherwise give the numbers-or-strings error. |
| EvaluatorProps.PlusAddsOrConcatenates | app/commands/evaluate-command.js:119-121 | `+` adds numbers and concatenates strings. |
| EvaluatorProps.ArithmeticOperandTypes | app/commands/evaluate-command.js:123-139 | `-`, `*` and `/` need two numbers. `/` also needs a non-zero divisor, and then gives the quotient. |
| EvaluatorProps.OtherBinaryOperatorIsNil | app/commands/evaluate-command.js:140-145 | Any other operator in a binary node evaluates to `nil`. |
| EvaluatorProps.StringLessIrreflexive | app/commands/evaluate-command.js:115-116 | No string is less than itself. |
| EvaluatorProps.StringLessTrichotomy | app/commands/evaluate-command.js:115-116 | Of two different strings, exactly one is less than the other. |
| EvaluatorProps.ComparisonsAgree | app/commands/evaluate-command.js:103-117 | `>=` is `>` or equal, `<=` is `<` or equal, and `>` is `<` with the operands swapped. |
| EvaluatorProps.RightBeforeLeft | app/commands/evaluate-command.js:92-94 | A binary node evaluates its right operand first. The left one runs on the stack the right one left behind, and not at all when the right one fails. |
| EvaluatorProps.RightFailureHidesLeft | app/commands/evaluate-command.js:92-94 | When the right operand fails, a binary node gives the same result whatever its left operand is. |
| EvaluatorProps.RightBeforeLeftExample | app/commands/evaluate-command.js:92-94 | `(a = 1) == (a = 2)` leaves `a` holding 1. |
| EvaluatorProps.AssignNumber | app/commands/evaluate-command.js:182-192 | `a = n` evaluates to `n` and leaves `a` holding `n`. |
| EvaluatorProps.ShortCircuit | app/commands/evaluate-command.js:194-205 | `or` returns a truthy left operand, and `and` a falsy one, without evaluating the right. Otherwise the result is the right operand, evaluated after the left. |
| EvaluatorProps.ShortCircuitIgnoresRight | app/commands/evaluate-command.js:194-205 | When the left operand decides `or`/`and`, the result is the left evaluation, the same whatever the right operand is. |
| EvaluatorProps.ArgumentsLeftToRight | app/commands/evaluate-command.js:45-49 | Arguments run left to right, each on the stack the previous one left behind. |
| EvaluatorProps.AssignmentStores | app/commands/evaluate-command.js:182-192 | The value is evaluated first, then stored in the innermost scope that binds the name and returned. A non-variable target or an unbound name is an error. |
| EvaluatorProps.CalleeFailureSkipsArguments | app/commands/evaluate-command.js:42-45 | A failing callee is the call's result, whatever the arguments are: none of them runs. |
| EvaluatorProps.CallChecks | app/commands/evaluate-command.js:42-62 | After the callee and all arguments, a non-callable is an error and an arity mismatch is an error. Otherwise the result is what the callable returns. |
| EvaluatorProps.OnlyAssignmentChangesScopes | app/commands/evaluate-command.js:19-40 | A tree without assignments leaves the stack exactly as it was. |
| EvaluatorProps.ParsedTreeIsClosed | app/commands/evaluate-command.js:19-40 | A tree the parser builds has the same outcome on every stack and changes none. |
| EvaluatorProps.CommandShowsNil | app/commands/evaluate-command.js:7-17 | The command turns `nil` into the text "nil" and passes errors on. |
| AstPrinter.FractionDigits | app/utils/ast-printer.js:16-18 | The least number of decimal places, up to 22, that writes a fraction exactly, or nothing if none does. |
| PrinterNumbers.PrintedNumberReadsBack | app/utils/ast-printer.js:16-18 | A non-negative number prints as a lexeme that the scanner's number conversion reads back to the same number. |
| PrinterNumbers.NegativeNumberSign | app/utils/ast-printer.js:16-18 | A negative number prints as its magnitude after a minus sign. |
| PrinterNumbers.PrintedPointZeroIffIntegral | app/utils/ast-printer.js:16-18 | The text ends in `.0` exactly when the number is integral. A fraction has no trailing zero. |
| PrinterNumbers.FractionText | app/utils/ast-printer.js:16-18 | A non-integral number prints as its whole part, a point, and the fewest exact fraction digits. |
| PrinterNumbers.IntegralReadsBack | app/utils/ast-printer.js:16-18 | `toFixed(1)` text of a whole number reads back as it. |
| PrinterNumbers.FractionReadsBack | app/utils/ast-printer.js:16-18 | A whole part and exact fraction digits read back as their sum. |
| PrinterNumbers.TrailingZeroIsNotShortest | app/utils/ast-printer.js:16-18 | A fraction whose last digit is 0 was already exact one place earlier. |
| PrinterNumbers.WholeNumberText | app/utils/ast-printer.js:16-18 | A whole number below 10^21 prints with `.0`. |
| PrinterNumbers.ScaledBack | app/utils/ast-printer.js:16-18 | A fraction exact in `k` places is its `k` digits over 10^k. |
| PrinterNumbers.PrintsTwoAndAHalf | app/utils/ast-printer.js:16-18 | 2.5 prints as `2.5`. |
| PrinterNumbers.PrintsNegativeQuarter | app/utils/ast-printer.js:16-18 | -0.25 prints as `-0.25`. |
| PrinterNumbers.PrintsNegativeSeven | app/utils/ast-printer.js:16-18 | -7 prints as `-7.0`. |
| PrinterProps.SpelledTreeRenders | app/utils/ast-printer.js:1-7 | A canonical tree whose number and string tokens have modelled text renders as text. |
| PrinterProps.CanonicalTreeHasRenderers | app/utils/ast-printer.js:1-7 | Every node of a canonical tree has a renderer, so rendering it never reaches a missing one. |
| PrinterProps.ParsedTreePrints | app/utils/ast-printer.js:10-14 | Every tree the parser builds prints a line: the printer neither crashes on a missing renderer nor stays silent. |
| PrinterProps.ParsedTreePrintsText | app/utils/ast-printer.js:1-14 | A parsed tree whose number and string tokens have modelled text prints a line this model spells out. |
| PrinterProps.UnmodelledLiteralPrints | app/utils/ast-printer.js:5 | A literal whose text is not modelled still prints, alone or under a unary operator; it does not crash. |
| PrinterProps.SilentOnlyForBareError | app/utils/ast-printer.js:10-12 | The printer prints nothing if and only if the node is an error node without a message. |
| PrinterProps.UnprintableNodes | app/utils/ast-printer.js:1-7 | Variable, assignment, logical and call nodes have no renderer and crash the printer. |
| PrinterProps.PrintsFactorInsideTerm | app/utils/ast-printer.js:1-14 | `1 + 2 * 3` parses and prints as `(+ 1.0 (* 2.0 3.0))`. |
| PrinterProps.LiteralPrints | app/utils/ast-printer.js:5 | A literal spelled by a printable token has text. |

## Left out

- IEEE doubles: numbers are exact reals, so rounding, `NaN` and infinities are not modelled.
  - Division by zero, which gives an infinity or `NaN` in the source, is the runtime error `NonFinite` here.
  - `Number.isInteger` in the `/` case does not matter, because both branches divide.
- AstPrinter.PrintAsFloat: returns nothing where a double would print in exponent notation (from 10^21, or below 10^-6), or would need more than 22 fraction digits. The printer then reports `PrintedUnmodelled`: a line is printed, but its text is not modelled. The shortest-round-trip digits of a double are modelled as the exact shortest decimal form of the real.
- Decimal.NumberLiteral: `parseFloat` is the exact rational value of the lexeme, without rounding to a double.
- Calling a function runs code this model does not contain. The result of `fun.call` is supplied by the parameter `call`, and a callable value is an identity with an arity.
- Evaluator.Eval: the call oracle `call` sees only the callee and the argument values. It neither reads nor changes the scope stack. `fun.call` in the source could do both. Eval's guarantee that the stack keeps its shape, `EvaluatorProps.OnlyAssignmentChangesScopes` and `EvaluatorProps.ParsedTreeIsClosed` rest on that assumption.
- AstPrinter.AstPrint: a literal whose text the model does not spell out prints `PrintedUnmodelled` rather than a line. This covers numbers PrintAsFloat leaves undecided and callable values. Only a node without a renderer gives `Crashed`.
- Lexer.Tokenize: models one call on fresh module state. The source never resets its token array, error counter, line counter or flags between calls; the interpreter calls it once per run. The line-by-line tokenizer's never-reset array and counter are modelled.
- `parseCommand` passes the result object of `tokenizeCommand` where a token array is expected. `Parser.Expression` is given the token array itself, and the wiring is not modelled.
- Parser.Expression: requires a token sequence ending in EOF, which is what the scanner always produces (`LexerProps.ScanEndsWithOneEof`). Past the end the source would read `undefined`.
- Parse failures end the command with an exception in the source: destructuring the `undefined` that `primary` returns, or the `throw` in `consume`. Here they are the `Failed` result with the index where parsing stopped. Error messages and exit codes are not modelled.
- Runtime errors end the process in the source. Here they are the `Error` outcome; the text written to the error stream and the exit code are not modelled. This includes:
  - the TypeError from calling `EvaluationError` without `new` for a non-variable assignment target;
  - the TypeError from `'call' in` on a primitive callee.
- Logger output: the scanner's diagnostics are kept as a list of `(line, character)` or `(line)` records, not as formatted text. The line-by-line tokenizer's token value is always null and is not stored.
- Statements, `synchronize`, closures and the `clock` native are not part of the modelled core. The code generator, `main.js`, the loggers and the error classes are not part of this model.
- Strings are sequences of Dafny `char`. JavaScript compares and indexes UTF-16 code units, and `for ... of` walks code points. The two agree on text without surrogate pairs.
