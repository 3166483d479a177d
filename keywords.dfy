/** The reserved-word table consulted by the lexer when it finishes an identifier. */
module Keywords {
  import opened Options
  import opened Tokens

  /** The sixteen reserved words and the token kind each one scans to. */
  const KeywordTable: map<string, TokenKind> := map[
    "and" := AND,
    "class" := CLASS,
    "else" := ELSE,
    "false" := FALSE,
    "for" := FOR,
    "fun" := FUN,
    "if" := IF,
    "nil" := NIL,
    "or" := OR,
    "print" := PRINT,
    "return" := RETURN,
    "super" := SUPER,
    "this" := THIS,
    "true" := TRUE,
    "var" := VAR,
    "while" := WHILE
  ]

  /**
   * `keywords.get(text)`: the kind `text` is reserved for, or None. Written
   * word by word; LookupAgreesWithTable shows it reads KeywordTable.
   */
  function Lookup(text: string): Option<TokenKind> {
    if text == "and" then Some(AND)
    else if text == "class" then Some(CLASS)
    else if text == "else" then Some(ELSE)
    else if text == "false" then Some(FALSE)
    else if text == "for" then Some(FOR)
    else if text == "fun" then Some(FUN)
    else if text == "if" then Some(IF)
    else if text == "nil" then Some(NIL)
    else if text == "or" then Some(OR)
    else if text == "print" then Some(PRINT)
    else if text == "return" then Some(RETURN)
    else if text == "super" then Some(SUPER)
    else if text == "this" then Some(THIS)
    else if text == "true" then Some(TRUE)
    else if text == "var" then Some(VAR)
    else if text == "while" then Some(WHILE)
    else None
  }

  /** ASCII upper-casing of one character. */
  function UpperChar(c: char): char {
    if 'a' <= c <= 'z' then (c as int - 32) as char else c
  }

  /** ASCII upper-casing, enough for the reserved words. */
  function ToUpper(s: string): (r: string) {
    seq(|s|, i requires 0 <= i < |s| => UpperChar(s[i]))
  }

  /** A key of the table is one of the sixteen words (the map display read backwards). */
  lemma KeywordCases(w: string)
    requires w in KeywordTable
    ensures w == "and" || w == "class" || w == "else" || w == "false" || w == "for" || w == "fun"
         || w == "if" || w == "nil" || w == "or" || w == "print" || w == "return" || w == "super"
         || w == "this" || w == "true" || w == "var" || w == "while"
  {
  }

  // The upper-cased spelling of each reserved word is the printed name of its kind, two words at a time.
  lemma UpperCasedNames0()
    ensures KindName(KeywordTable["and"]) == ToUpper("and")
         && KindName(KeywordTable["class"]) == ToUpper("class")
  {
    assert ToUpper("and") == "AND";
    assert ToUpper("class") == "CLASS";
  }

  lemma UpperCasedNames1()
    ensures KindName(KeywordTable["else"]) == ToUpper("else")
         && KindName(KeywordTable["false"]) == ToUpper("false")
  {
    assert ToUpper("else") == "ELSE";
    assert ToUpper("false") == "FALSE";
  }

  lemma UpperCasedNames2()
    ensures KindName(KeywordTable["for"]) == ToUpper("for")
         && KindName(KeywordTable["fun"]) == ToUpper("fun")
  {
    assert ToUpper("for") == "FOR";
    assert ToUpper("fun") == "FUN";
  }

  lemma UpperCasedNames3()
    ensures KindName(KeywordTable["if"]) == ToUpper("if")
         && KindName(KeywordTable["nil"]) == ToUpper("nil")
  {
    assert ToUpper("if") == "IF";
    assert ToUpper("nil") == "NIL";
  }

  lemma UpperCasedNames4()
    ensures KindName(KeywordTable["or"]) == ToUpper("or")
         && KindName(KeywordTable["print"]) == ToUpper("print")
  {
    assert ToUpper("or") == "OR";
    assert ToUpper("print") == "PRINT";
  }

  lemma UpperCasedNames5()
    ensures KindName(KeywordTable["return"]) == ToUpper("return")
         && KindName(KeywordTable["super"]) == ToUpper("super")
  {
    assert ToUpper("return") == "RETURN";
    assert ToUpper("super") == "SUPER";
  }

  lemma UpperCasedNames6()
    ensures KindName(KeywordTable["this"]) == ToUpper("this")
         && KindName(KeywordTable["true"]) == ToUpper("true")
  {
    assert ToUpper("this") == "THIS";
    assert ToUpper("true") == "TRUE";
  }

  lemma UpperCasedNames7()
    ensures KindName(KeywordTable["var"]) == ToUpper("var")
         && KindName(KeywordTable["while"]) == ToUpper("while")
  {
    assert ToUpper("var") == "VAR";
    assert ToUpper("while") == "WHILE";
  }

  /** Every reserved word scans to the kind whose printed name is the word in upper case. */
  lemma KeywordKindIsUpperCasedWord(w: string)
    requires w in KeywordTable
    ensures KindName(KeywordTable[w]) == ToUpper(w)
  {
    UpperCasedNames0();
    UpperCasedNames1();
    UpperCasedNames2();
    UpperCasedNames3();
    UpperCasedNames4();
    UpperCasedNames5();
    UpperCasedNames6();
    UpperCasedNames7();
    KeywordCases(w);
  }

  /** No two reserved words share a token kind. */
  lemma KeywordsInjective(w1: string, w2: string)
    requires Lookup(w1).Some? && Lookup(w2).Some? && w1 != w2
    ensures Lookup(w1).value != Lookup(w2).value
  {
    ReservedWordOfLookup(w1);
    ReservedWordOfLookup(w2);
  }

  /** The word a reserved kind is spelt with, and "" for every other kind. */
  function ReservedWord(kind: TokenKind): string {
    match kind
    case AND => "and"
    case CLASS => "class"
    case ELSE => "else"
    case FALSE => "false"
    case FOR => "for"
    case FUN => "fun"
    case IF => "if"
    case NIL => "nil"
    case OR => "or"
    case PRINT => "print"
    case RETURN => "return"
    case SUPER => "super"
    case THIS => "this"
    case TRUE => "true"
    case VAR => "var"
    case WHILE => "while"
    case _ => ""
  }

  /** ReservedWord undoes Lookup: the kind found for a word is spelt with that word. */
  lemma ReservedWordOfLookup(w: string)
    requires Lookup(w).Some?
    ensures ReservedWord(Lookup(w).value) == w
  {
    KeywordCasesOfLookup(w);
  }

  /** Lookup finds something only for the sixteen words. */
  lemma KeywordCasesOfLookup(w: string)
    requires Lookup(w).Some?
    ensures w == "and" || w == "class" || w == "else" || w == "false" || w == "for" || w == "fun"
         || w == "if" || w == "nil" || w == "or" || w == "print" || w == "return" || w == "super"
         || w == "this" || w == "true" || w == "var" || w == "while"
  {
  }

  /** Lookup is by exact text: a different capitalisation or spelling is not reserved. */
  lemma LookupIsExact()
    ensures "And" !in KeywordTable && "nill" !in KeywordTable && "While" !in KeywordTable && "" !in KeywordTable
  {
  }

  /** Lookup finds exactly the table's entries: a reserved word's kind, and nothing for any other text. */
  lemma LookupAgreesWithTable(text: string)
    ensures Lookup(text) == if text in KeywordTable then Some(KeywordTable[text]) else None
  {
    if text in KeywordTable {
      KeywordCases(text);
    }
  }

  /** Lookup never yields EOF, IDENTIFIER or a literal kind. */
  lemma LookupKinds(text: string)
    ensures Lookup(text).Some? ==> Lookup(text).value !in {EOF, IDENTIFIER, NUMBER, STRING}
  {
  }

  /** No reserved word scans to EOF, IDENTIFIER or a literal kind. */
  lemma KeywordKinds(w: string)
    requires w in KeywordTable
    ensures KeywordTable[w] !in {EOF, IDENTIFIER, NUMBER, STRING}
  {
  }

  /** The sixteen reserved words in the order the table lists them. */
  const ReservedWords: seq<string> := ["and", "class", "else", "false", "for", "fun", "if", "nil",
    "or", "print", "return", "super", "this", "true", "var", "while"]

  lemma {:induction false} DistinctWordsCount(ws: seq<string>)
    requires forall i, j :: 0 <= i < j < |ws| ==> ws[i] != ws[j]
    ensures |set w | w in ws| == |ws|
  {
    if ws != [] {
      var n := |ws| - 1;
      DistinctWordsCount(ws[..n]);
      assert (set w | w in ws) == (set w | w in ws[..n]) + {ws[n]};
    }
  }

  lemma ReservedWordsDistinct()
    ensures forall i, j :: 0 <= i < j < |ReservedWords| ==> ReservedWords[i] != ReservedWords[j]
  {
  }

  /** The table has exactly sixteen entries. */
  lemma KeywordCount()
    ensures |KeywordTable| == 16
  {
    assert KeywordTable.Keys == set w | w in ReservedWords;
    ReservedWordsDistinct();
    DistinctWordsCount(ReservedWords);
  }
}
