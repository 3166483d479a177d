/**
 * Properties of the line-by-line tokenizer: splitting on newlines loses
 * nothing and changes no token, one token per punctuation character plus
 * EOF, and one report per rejected character, on the line it stands on.
 */
module LegacyProps {
  import opened Options
  import opened Tokens
  import opened LegacyTokenizer
  import opened Strings

  /** The positions of the punctuation characters of `s`. */
  function PunctuationAt(s: string): set<nat> {
    set i: nat | i < |s| && PunctuationKind(s[i]).Some?
  }

  /** The positions of the characters of `s` the tokenizer reports. */
  function RejectedAt(s: string): set<nat> {
    set i: nat | i < |s| && Rejected(s[i])
  }

  // ------------------------------------------------------------------ lines

  /** Splitting on newlines and joining with newlines gives the text back. */
  lemma {:induction false} SplitJoin(s: string)
    ensures Join(Split(s)) == s
    decreases |s|
  {
    var k := IndexOf(s, '\n');
    if k < |s| {
      var rest := s[k + 1..];
      SplitJoin(rest);
      assert Split(s) == [s[..k]] + Split(rest);
      assert Split(s)[1..] == Split(rest);
      assert s == s[..k] + "\n" + rest;
    }
  }

  lemma {:induction false} JoinSnoc(lines: seq<string>)
    requires |lines| >= 2
    ensures Join(lines) == Join(lines[..|lines| - 1]) + "\n" + lines[|lines| - 1]
    decreases |lines|
  {
    var m := |lines|;
    if m == 2 {
      assert lines[1..] == [lines[1]];
      assert lines[..1] == [lines[0]];
    } else {
      JoinSnoc(lines[1..]);
      assert lines[1..][..m - 2] == lines[..m - 1][1..];
      assert lines[1..][m - 2] == lines[m - 1];
    }
  }

  // ------------------------------------------------- tokens of joined text

  lemma {:induction false} LineTokensAppend(a: string, b: string)
    ensures LineTokens(a + b) == LineTokens(a) + LineTokens(b)
    decreases |b|
  {
    if b == [] {
      assert a + b == a;
    } else {
      var n := |b|;
      assert (a + b)[..|a + b| - 1] == a + b[..n - 1];
      assert (a + b)[|a + b| - 1] == b[n - 1];
      LineTokensAppend(a, b[..n - 1]);
    }
  }

  lemma {:induction false} LineErrorsAppend(a: string, b: string, line: nat)
    ensures LineErrors(a + b, line) == LineErrors(a, line) + LineErrors(b, line)
    decreases |b|
  {
    if b == [] {
      assert a + b == a;
    } else {
      var n := |b|;
      assert (a + b)[..|a + b| - 1] == a + b[..n - 1];
      assert (a + b)[|a + b| - 1] == b[n - 1];
      LineErrorsAppend(a, b[..n - 1], line);
    }
  }

  /** The newlines between lines add no token: the tokens are those of the joined text. */
  lemma {:induction false} LinesTokensJoin(lines: seq<string>)
    requires |lines| >= 1
    ensures LinesTokens(lines) == LineTokens(Join(lines))
    decreases |lines|
  {
    var m := |lines|;
    if m == 1 {
      assert lines[..0] == [];
    } else {
      var init, last := Join(lines[..m - 1]), lines[m - 1];
      LinesTokensJoin(lines[..m - 1]);
      JoinSnoc(lines);
      LineTokensAppend(init + "\n", last);
      LineTokensAppend(init, "\n");
      NewlineNoToken();
      calc {
        LineTokens(Join(lines));
        LineTokens(init + "\n" + last);
        LineTokens(init + "\n") + LineTokens(last);
        LineTokens(init) + [] + LineTokens(last);
        { assert LineTokens(init) + [] == LineTokens(init); }
        LinesTokens(lines[..m - 1]) + LineTokens(last);
        LinesTokens(lines);
      }
    }
  }

  lemma NewlineNoToken()
    ensures LineTokens("\n") == []
    ensures forall n: nat :: LineErrors("\n", n) == []
  {
    assert "\n"[..0] == "";
  }

  /** How many reports a line gives does not depend on its number. */
  lemma {:induction false} LineErrorsRenumber(s: string, n: nat, m: nat)
    ensures |LineErrors(s, n)| == |LineErrors(s, m)|
    decreases |s|
  {
    if s != [] {
      LineErrorsRenumber(s[..|s| - 1], n, m);
    }
  }

  lemma {:induction false} LinesErrorsCount(lines: seq<string>)
    requires |lines| >= 1
    ensures |LinesErrors(lines)| == |LineErrors(Join(lines), 0)|
    decreases |lines|
  {
    var m := |lines|;
    LineErrorsRenumber(lines[m - 1], m, 0);
    if m == 1 {
      assert lines[..0] == [];
    } else {
      var init, last := Join(lines[..m - 1]), lines[m - 1];
      LinesErrorsCount(lines[..m - 1]);
      JoinSnoc(lines);
      LineErrorsAppend(init + "\n", last, 0);
      LineErrorsAppend(init, "\n", 0);
      NewlineNoToken();
      calc {
        |LineErrors(Join(lines), 0)|;
        |LineErrors(init + "\n" + last, 0)|;
        |LineErrors(init + "\n", 0)| + |LineErrors(last, 0)|;
        |LineErrors(init, 0)| + |LineErrors(last, 0)|;
        |LinesErrors(lines[..m - 1])| + |LineErrors(last, m)|;
        |LinesErrors(lines)|;
      }
    }
  }

  // ------------------------------------------------------------------ counts

  lemma {:induction false} LineTokensCount(s: string)
    ensures |LineTokens(s)| == |PunctuationAt(s)|
    decreases |s|
  {
    if s == [] {
      assert PunctuationAt(s) == {};
    } else {
      var n := |s| - 1;
      LineTokensCount(s[..n]);
      PunctuationAtSnoc(s);
    }
  }

  lemma PunctuationAtSnoc(s: string)
    requires s != []
    ensures var n := |s| - 1;
      |PunctuationAt(s)| == |PunctuationAt(s[..n])| + |CharTokens(s[n])|
  {
    var n := |s| - 1;
    var before := PunctuationAt(s[..n]);
    assert n !in before;
    if PunctuationKind(s[n]).Some? {
      assert PunctuationAt(s) == before + {n};
    } else {
      assert PunctuationAt(s) == before;
    }
  }

  lemma {:induction false} LineErrorsCount(s: string, line: nat)
    ensures |LineErrors(s, line)| == |RejectedAt(s)|
    decreases |s|
  {
    if s == [] {
      assert RejectedAt(s) == {};
    } else {
      var n := |s| - 1;
      LineErrorsCount(s[..n], line);
      RejectedAtSnoc(s, line);
    }
  }

  lemma RejectedAtSnoc(s: string, line: nat)
    requires s != []
    ensures var n := |s| - 1;
      |RejectedAt(s)| == |RejectedAt(s[..n])| + |CharErrors(s[n], line)|
  {
    var n := |s| - 1;
    var before := RejectedAt(s[..n]);
    assert n !in before;
    if Rejected(s[n]) {
      assert RejectedAt(s) == before + {n};
    } else {
      assert RejectedAt(s) == before;
    }
  }

  /**
   * One call adds one token per punctuation character of the whole text,
   * whatever line it is on, then EOF.
   */
  lemma TokenCount(src: string)
    ensures |Tokenized(src)| == |PunctuationAt(src)| + 1
  {
    LinesTokensJoin(Split(src));
    SplitJoin(src);
    LineTokensCount(src);
  }

  /** One call adds one report, and one to the error count, per rejected character. */
  lemma ReportCount(src: string)
    ensures |LinesErrors(Split(src))| == |RejectedAt(src)|
  {
    LinesErrorsCount(Split(src));
    SplitJoin(src);
    LineErrorsCount(src, 0);
  }

  // ------------------------------------------------------------------ shapes

  lemma {:induction false} LineTokensShape(s: string)
    ensures forall k :: 0 <= k < |LineTokens(s)| ==>
      var t := LineTokens(s)[k];
      |t.text| == 1 && t.text[0] in s && PunctuationKind(t.text[0]) == Some(t.kind)
    decreases |s|
  {
    if s != [] {
      var n := |s| - 1;
      LineTokensShape(s[..n]);
      assert forall c :: c in s[..n] ==> c in s;
    }
  }

  /**
   * Every token before the last is one punctuation character of the text,
   * carrying that character's kind; the last is EOF with empty text.
   */
  lemma TokenShape(src: string)
    ensures Tokenized(src)[|Tokenized(src)| - 1] == EofToken
    ensures forall k :: 0 <= k < |Tokenized(src)| - 1 ==>
      var t := Tokenized(src)[k];
      |t.text| == 1 && t.text[0] in src && PunctuationKind(t.text[0]) == Some(t.kind)
  {
    LinesTokensJoin(Split(src));
    SplitJoin(src);
    LineTokensShape(src);
  }

  lemma {:induction false} LineErrorsShape(s: string, line: nat)
    ensures forall k :: 0 <= k < |LineErrors(s, line)| ==>
      var e := LineErrors(s, line)[k];
      e.line == line && Rejected(e.character) && e.character in s
    decreases |s|
  {
    if s != [] {
      var n := |s| - 1;
      LineErrorsShape(s[..n], line);
      assert forall c :: c in s[..n] ==> c in s;
    }
  }

  /**
   * Every report names a rejected character and the 1-based number of a
   * line that holds it.
   */
  lemma {:induction false} ReportsLocated(lines: seq<string>)
    ensures forall k :: 0 <= k < |LinesErrors(lines)| ==>
      var e := LinesErrors(lines)[k];
      1 <= e.line <= |lines| && Rejected(e.character) && e.character in lines[e.line - 1]
    decreases |lines|
  {
    if lines != [] {
      var m := |lines|;
      ReportsLocated(lines[..m - 1]);
      LineErrorsShape(lines[m - 1], m);
    }
  }

  // ---------------------------------------------------------------- examples

  /** A tab is not whitespace here: it is reported. */
  lemma TabIsUnexpected(line: nat)
    ensures CharErrors('\t', line) == [UnexpectedChar(line, '\t')]
    ensures CharTokens('\t') == []
  {
  }

  lemma SplitParenTab()
    ensures Split("(\n\t") == ["(", "\t"]
  {
    var s := "(\n\t";
    assert IndexOf(s, '\n') == 1;
    assert s[..1] == "(" && s[2..] == "\t";
    assert IndexOf("\t", '\n') == 1;
  }

  /** `(` on line 1 and a tab on line 2: one token, then EOF. */
  lemma ParenThenTabTokens()
    ensures Tokenized("(\n\t") == [LegacyToken(LEFT_PAREN, "("), EofToken]
  {
    SplitParenTab();
    var lines := ["(", "\t"];
    assert lines[..1] == ["("] && ["("][..0] == [];
    assert LineTokens("(") == [LegacyToken(LEFT_PAREN, "(")] by {
      assert "("[..0] == "";
    }
    assert LineTokens("\t") == [] by {
      assert "\t"[..0] == "";
    }
    assert LinesTokens(lines) == LineTokens("(") + LineTokens("\t");
  }

  /** ... and one report, on line 2. */
  lemma ParenThenTabReports()
    ensures LinesErrors(Split("(\n\t")) == [UnexpectedChar(2, '\t')]
  {
    SplitParenTab();
    var lines := ["(", "\t"];
    assert lines[..1] == ["("] && ["("][..0] == [];
    assert LineErrors("(", 1) == [] by {
      assert "("[..0] == "";
    }
    assert LineErrors("\t", 2) == [UnexpectedChar(2, '\t')] by {
      assert "\t"[..0] == "";
    }
    assert LinesErrors(lines) == LineErrors("(", 1) + LineErrors("\t", 2);
  }
}
