/**
 * Properties of the tree printer over trees: every tree the parser builds
 * prints, and only an error node without a message prints nothing.
 */
module PrinterProps {
  import opened Options
  import opened Values
  import opened Tokens
  import opened Ast
  import opened Decimal
  import opened Parser
  import opened ParserProps
  import opened AstPrinter
  import opened PrinterNumbers

  // -------------------------------------------------------------------- trees

  /** A literal token whose value the printer can show. */
  predicate TokenPrints(t: Token) {
    (t.kind == NUMBER || t.kind == STRING) ==> LiteralText(t.literal).Some?
  }

  lemma {:induction false} SpelledTreeRenders(ts: seq<Token>, i: nat, e: Expr)
    requires Canonical(e) && Spells(ts, i, e)
    requires forall k :: i <= k < i + Width(e) ==> TokenPrints(ts[k])
    ensures Render(e).Text?
    decreases e, 1
  {
    match e
    case Literal(v) =>
      LiteralPrints(ts[i], v);
    case Grouping(x) =>
      SpelledTreeRenders(ts, i + 1, x);
    case Unary(op, x) =>
      SpelledTreeRenders(ts, i + 1, x);
    case Binary(_, _, _) =>
      BinaryRenders(ts, i, e);
  }

  lemma {:induction false} BinaryRenders(ts: seq<Token>, i: nat, e: Expr)
    requires e.Binary? && Canonical(e) && Spells(ts, i, e)
    requires forall k :: i <= k < i + Width(e) ==> TokenPrints(ts[k])
    ensures Render(e).Text?
    decreases e, 0
  {
    SpelledTreeRenders(ts, i, e.left);
    SpelledTreeRenders(ts, i + Width(e.left) + 1, e.right);
  }

  lemma LiteralPrints(t: Token, v: Value)
    requires LiteralSpelling(t, v) && TokenPrints(t)
    ensures LiteralText(v).Some?
  {
  }

  /** A canonical tree has a renderer at every node. */
  lemma {:induction false} CanonicalTreeHasRenderers(e: Expr)
    requires Canonical(e)
    ensures !Render(e).NoRenderer?
  {
    match e
    case Literal(_) =>
    case Grouping(x) =>
      CanonicalTreeHasRenderers(x);
    case Unary(_, x) =>
      CanonicalTreeHasRenderers(x);
    case Binary(l, _, r) =>
      CanonicalTreeHasRenderers(l);
      CanonicalTreeHasRenderers(r);
  }

  /**
   * The printer never crashes on a tree the parser builds: the node kinds it
   * has no renderer for never come out of the expression grammar.
   */
  lemma ParsedTreePrints(ts: seq<Token>, i: nat, e: Expr, j: nat)
    requires Valid(ts) && i < |ts| && Expression(ts, i) == Parsed(e, j)
    ensures AstPrint(e) != Crashed && AstPrint(e) != Silent
  {
    ExpressionExactly(ts, i, e, j);
    CanonicalTreeHasRenderers(e);
  }

  /**
   * A parsed tree whose number and string tokens have text this model spells
   * out prints as a line of that text.
   */
  lemma ParsedTreePrintsText(ts: seq<Token>, i: nat, e: Expr, j: nat)
    requires Valid(ts) && i < |ts| && Expression(ts, i) == Parsed(e, j)
    requires forall k :: i <= k < j ==> TokenPrints(ts[k])
    ensures AstPrint(e).Printed?
  {
    ExpressionExactly(ts, i, e, j);
    SpelledTreeRenders(ts, i, e);
  }

  /** A literal whose text is not modelled still prints; it does not crash. */
  lemma UnmodelledLiteralPrints(v: Value)
    requires LiteralText(v).None?
    ensures AstPrint(Literal(v)) == PrintedUnmodelled
    ensures AstPrint(Unary(Token(MINUS, "-", Nil, 1), Literal(v))) == PrintedUnmodelled
  {
  }

  /** Only an error node without a message prints nothing. */
  lemma SilentOnlyForBareError(e: Expr)
    ensures AstPrint(e) == Silent <==> e == ErrorNode(None)
  {
  }

  /** The nodes without a renderer crash the printer. */
  lemma UnprintableNodes(e: Expr)
    requires e.Variable? || e.Assignment? || e.Logical? || e.Call?
    ensures AstPrint(e) == Crashed
  {
  }

  // ----------------------------------------------------------------- examples

  /** `1 + 2 * 3` parses and prints as `(+ 1.0 (* 2.0 3.0))`. */
  lemma PrintsFactorInsideTerm(one: Token, plus: Token, two: Token, star: Token, three: Token, eof: Token)
    requires one.kind == NUMBER && two.kind == NUMBER && three.kind == NUMBER
    requires one.literal == Num(1.0) && two.literal == Num(2.0) && three.literal == Num(3.0)
    requires plus.kind == PLUS && plus.lexeme == "+" && star.kind == STAR && star.lexeme == "*"
    requires eof.kind == EOF
    ensures Expression([one, plus, two, star, three, eof], 0).Parsed?
    ensures AstPrint(Expression([one, plus, two, star, three, eof], 0).expr) == Printed("(+ 1.0 (* 2.0 3.0))")
  {
    FactorBindsTighter(one, plus, two, star, three, eof);
    SumOfProductText(plus, star);
  }

  lemma SumOfProductText(plus: Token, star: Token)
    requires plus.lexeme == "+" && star.lexeme == "*"
    ensures Render(Binary(Literal(Num(1.0)), plus, Binary(Literal(Num(2.0)), star, Literal(Num(3.0)))))
      == Text("(+ 1.0 (* 2.0 3.0))")
  {
    SmallWholeTexts();
    ProductText(star);
    assert "(" + "+" + " " + "1.0" + " " + "(* 2.0 3.0)" + ")" == "(+ 1.0 (* 2.0 3.0))";
  }

  lemma ProductText(star: Token)
    requires star.lexeme == "*"
    ensures Render(Binary(Literal(Num(2.0)), star, Literal(Num(3.0)))) == Text("(* 2.0 3.0)")
  {
    SmallWholeTexts();
    assert "(" + "*" + " " + "2.0" + " " + "3.0" + ")" == "(* 2.0 3.0)";
  }

  lemma SmallWholeTexts()
    ensures Render(Literal(Num(1.0))) == Text("1.0")
    ensures Render(Literal(Num(2.0))) == Text("2.0")
    ensures Render(Literal(Num(3.0))) == Text("3.0")
  {
    WholeNumberText(1.0, 1);
    WholeNumberText(2.0, 2);
    WholeNumberText(3.0, 3);
    assert IntText(1) + ".0" == "1.0" && IntText(2) + ".0" == "2.0" && IntText(3) + ".0" == "3.0";
  }
}
