/**
 * What the precedence cascade accepts, stated without the parser.
 *
 * A tree is `Canonical` when it is built from the nodes the parser produces
 * and its binary nodes respect precedence and left-associativity: the left
 * operand binds no looser than the operator and the right operand binds
 * strictly tighter. `Spells(ts, i, e)` says that the tokens from `i` on spell
 * `e` (with `Width(e)` tokens). The main theorem, `ExpressionExactly`, says
 * that `Expression(ts, i)` returns `e` exactly when `e` is canonical, the
 * tokens spell it, and the token after it is not a binary operator.
 */
module ParserProps {
  import opened Values
  import opened Tokens
  import opened Ast
  import opened Parser

  /** The binary level an operator kind belongs to, 0 for every other kind. */
  function OpLevel(k: TokenKind): (lv: nat)
    ensures lv <= Equality
  {
    match k
    case BANG_EQUAL | EQUAL_EQUAL => Equality
    case GREATER | GREATER_EQUAL | LESS | LESS_EQUAL => Comparison
    case MINUS | PLUS => Term
    case SLASH | STAR => Factor
    case _ => 0
  }

  /** Each level loops on exactly the operators of that level. */
  lemma OperatorsOfLevel(lv: nat, k: TokenKind)
    requires IsLevel(lv)
    ensures k in Operators(lv) <==> OpLevel(k) == lv
  {
  }

  /** How loosely a tree binds: the level of its top operator, 0 for the tight forms. */
  function Prec(e: Expr): nat {
    if e.Binary? then OpLevel(e.operator.kind) else 0
  }

  predicate Canonical(e: Expr) {
    match e
    case Literal(_) => true
    case Grouping(x) => Canonical(x)
    case Unary(op, x) => (op.kind == BANG || op.kind == MINUS) && Canonical(x) && Prec(x) == 0
    case Binary(l, op, r) =>
      OpLevel(op.kind) > 0 && Canonical(l) && Canonical(r)
      && Prec(l) <= OpLevel(op.kind) && Prec(r) < OpLevel(op.kind)
    case _ => false
  }

  /** The number of tokens that spell a tree. */
  function Width(e: Expr): nat {
    match e
    case Literal(_) => 1
    case Grouping(x) => Width(x) + 2
    case Unary(_, x) => Width(x) + 1
    case Binary(l, _, r) => Width(l) + 1 + Width(r)
    case _ => 0
  }

  /** A token that `primary` turns into the literal `v`. */
  predicate LiteralSpelling(t: Token, v: Value) {
    match t.kind
    case NIL => v == Nil
    case TRUE => v == Bool(true)
    case FALSE => v == Bool(false)
    case NUMBER => v == t.literal
    case STRING => v == t.literal
    case _ => false
  }

  /** The tokens from `i` on spell `e`; operator tokens are kept in the tree whole. */
  predicate Spells(ts: seq<Token>, i: nat, e: Expr)
    decreases e
  {
    i + Width(e) <= |ts| &&
    match e
    case Literal(v) => LiteralSpelling(ts[i], v)
    case Grouping(x) =>
      ts[i].kind == LEFT_PAREN && Spells(ts, i + 1, x) && ts[i + 1 + Width(x)].kind == RIGHT_PAREN
    case Unary(op, x) => ts[i] == op && Spells(ts, i + 1, x)
    case Binary(l, op, r) =>
      Spells(ts, i, l) && ts[i + Width(l)] == op && Spells(ts, i + Width(l) + 1, r)
    case _ => false
  }

  /** The token at `j` ends every loop of level `lv` and below. */
  predicate Stops(ts: seq<Token>, j: nat, lv: int)
    requires j < |ts|
  {
    OpLevel(ts[j].kind) == 0 || OpLevel(ts[j].kind) > lv
  }

  /** What a successful parse at level `lv` from `i` looks like. */
  predicate Shaped(ts: seq<Token>, i: nat, r: ParseResult, lv: int) {
    r.Parsed? && Canonical(r.expr) && Prec(r.expr) <= lv && Spells(ts, i, r.expr)
    && r.next == i + Width(r.expr) && r.next < |ts| && Stops(ts, r.next, lv)
  }

  // ------------------------------------------------ one step of each production

  /** A level's loop goes round once more on an operator of its own level. */
  lemma LevelTailContinues(ts: seq<Token>, lv: nat, left: Expr, i: nat, right: Expr, j: nat)
    requires Valid(ts) && i + 1 < |ts| && IsLevel(lv) && OpLevel(ts[i].kind) == lv
    requires Operand(ts, lv, i + 1) == Parsed(right, j)
    ensures LevelTail(ts, lv, left, i) == LevelTail(ts, lv, Binary(left, ts[i], right), j)
  {
    OperatorsOfLevel(lv, ts[i].kind);
  }

  /** A level's loop ends on any token that is not one of its operators. */
  lemma LevelTailStops(ts: seq<Token>, lv: nat, left: Expr, i: nat)
    requires Valid(ts) && i < |ts| && IsLevel(lv) && OpLevel(ts[i].kind) != lv
    ensures LevelTail(ts, lv, left, i) == Parsed(left, i)
  {
    OperatorsOfLevel(lv, ts[i].kind);
  }

  /** A leading `!` or `-` wraps the unary parsed after it. */
  lemma UnaryApplies(ts: seq<Token>, i: nat, x: Expr, j: nat)
    requires Valid(ts) && i + 1 < |ts| && (ts[i].kind == BANG || ts[i].kind == MINUS)
    requires UnaryLevel(ts, i + 1) == Parsed(x, j)
    ensures UnaryLevel(ts, i) == Parsed(Unary(ts[i], x), j)
  {
  }

  /** Without a leading `!` or `-`, `unary` is `primary`. */
  lemma UnaryIsPrimary(ts: seq<Token>, i: nat)
    requires Valid(ts) && i < |ts| && ts[i].kind != BANG && ts[i].kind != MINUS
    ensures UnaryLevel(ts, i) == Primary(ts, i)
  {
  }

  /**
   * `false`, `true` and `nil` become those literals, a number or string
   * token becomes its literal value, and each takes exactly one token.
   */
  lemma PrimaryLiteral(ts: seq<Token>, i: nat, v: Value)
    requires Valid(ts) && i < |ts| && LiteralSpelling(ts[i], v)
    ensures Primary(ts, i) == Parsed(Literal(v), i + 1)
  {
  }

  /** `(` expression `)` becomes a grouping node. */
  lemma PrimaryGroup(ts: seq<Token>, i: nat, x: Expr, j: nat)
    requires Valid(ts) && i + 1 < |ts| && ts[i].kind == LEFT_PAREN
    requires Expression(ts, i + 1) == Parsed(x, j) && ts[j].kind == RIGHT_PAREN
    ensures Primary(ts, i) == Parsed(Grouping(x), j + 1)
  {
  }

  /** `(` expression followed by anything but `)` is the failure `consume` throws. */
  lemma PrimaryUnclosedGroup(ts: seq<Token>, i: nat, x: Expr, j: nat)
    requires Valid(ts) && i + 1 < |ts| && ts[i].kind == LEFT_PAREN
    requires Expression(ts, i + 1) == Parsed(x, j) && ts[j].kind != RIGHT_PAREN
    ensures Primary(ts, i) == Failed(ExpectRightParen(j))
  {
  }

  /** A token that starts no expression is a failure at that token. */
  lemma PrimaryNoExpression(ts: seq<Token>, i: nat)
    requires Valid(ts) && i < |ts|
    requires ts[i].kind !in {FALSE, TRUE, NIL, NUMBER, STRING, LEFT_PAREN}
    ensures Primary(ts, i) == Failed(ExpectExpression(i))
  {
  }

  // ------------------------------------------- the parser finds a spelled tree

  lemma {:induction false} BinaryLevelFinds(ts: seq<Token>, lv: nat, e: Expr, i: nat)
    requires Valid(ts) && IsLevel(lv) && Canonical(e) && Prec(e) <= lv && Spells(ts, i, e)
    requires i + Width(e) < |ts| && Stops(ts, i + Width(e), lv)
    ensures BinaryLevel(ts, lv, i) == Parsed(e, i + Width(e))
    decreases e, lv, 2
  {
    var j := i + Width(e);
    StopsBelow(ts, j, lv);
    BinaryLevelPrefix(ts, lv, e, i);
    LevelTailStops(ts, lv, e, j);
  }

  /** A token that stops level `lv` stops the level below it too, and is no operator of `lv`. */
  lemma StopsBelow(ts: seq<Token>, j: nat, lv: nat)
    requires j < |ts| && IsLevel(lv) && Stops(ts, j, lv)
    ensures Stops(ts, j, lv - 1) && OpLevel(ts[j].kind) != lv
  {
  }

  /** Parsing at level `lv` reaches the loop with `e` as the left operand. */
  lemma {:induction false} BinaryLevelPrefix(ts: seq<Token>, lv: nat, e: Expr, i: nat)
    requires Valid(ts) && IsLevel(lv) && Canonical(e) && Prec(e) <= lv && Spells(ts, i, e)
    requires i + Width(e) < |ts| && Stops(ts, i + Width(e), lv - 1)
    ensures BinaryLevel(ts, lv, i) == LevelTail(ts, lv, e, i + Width(e))
    decreases e, lv, 1
  {
    if Prec(e) < lv {
      OperandFinds(ts, lv, e, i);
    } else {
      BinaryPrefixStep(ts, lv, e, i);
    }
  }

  /** A tree with an operator of level `lv` on top: its left operand first, then one round of the loop. */
  lemma {:induction false} BinaryPrefixStep(ts: seq<Token>, lv: nat, e: Expr, i: nat)
    requires Valid(ts) && IsLevel(lv) && e.Binary? && Canonical(e) && Prec(e) == lv && Spells(ts, i, e)
    requires i + Width(e) < |ts| && Stops(ts, i + Width(e), lv - 1)
    ensures BinaryLevel(ts, lv, i) == LevelTail(ts, lv, e, i + Width(e))
    decreases e, lv, 0
  {
    var l, r := e.left, e.right;
    var jl := i + Width(l);
    var j := jl + 1 + Width(r);
    assert j == i + Width(e);
    assert ts[jl] == e.operator && OpLevel(ts[jl].kind) == lv;
    BinaryLevelPrefix(ts, lv, l, i);
    OperandFinds(ts, lv, r, jl + 1);
    LevelTailContinues(ts, lv, l, jl, r, j);
  }

  lemma {:induction false} OperandFinds(ts: seq<Token>, lv: nat, e: Expr, i: nat)
    requires Valid(ts) && IsLevel(lv) && Canonical(e) && Prec(e) < lv && Spells(ts, i, e)
    requires i + Width(e) < |ts| && Stops(ts, i + Width(e), lv - 1)
    ensures Operand(ts, lv, i) == Parsed(e, i + Width(e))
    decreases e, lv, 0
  {
    if lv == Factor {
      UnaryLevelFinds(ts, e, i);
    } else {
      BinaryLevelFinds(ts, lv - 1, e, i);
    }
  }

  lemma {:induction false} UnaryLevelFinds(ts: seq<Token>, e: Expr, i: nat)
    requires Valid(ts) && Canonical(e) && Prec(e) == 0 && Spells(ts, i, e) && i + Width(e) < |ts|
    ensures UnaryLevel(ts, i) == Parsed(e, i + Width(e))
    decreases e, 0, 1
  {
    match e
    case Unary(op, x) =>
      UnaryFindsUnary(ts, e, i);
    case Literal(v) =>
      UnaryIsPrimary(ts, i);
      PrimaryLiteral(ts, i, v);
    case Grouping(x) =>
      UnaryFindsGrouping(ts, e, i);
  }

  lemma {:induction false} UnaryFindsUnary(ts: seq<Token>, e: Expr, i: nat)
    requires Valid(ts) && Canonical(e) && e.Unary? && Spells(ts, i, e) && i + Width(e) < |ts|
    ensures UnaryLevel(ts, i) == Parsed(e, i + Width(e))
    decreases e, 0, 0
  {
    UnaryLevelFinds(ts, e.expression, i + 1);
    UnaryApplies(ts, i, e.expression, i + 1 + Width(e.expression));
  }

  lemma {:induction false} UnaryFindsGrouping(ts: seq<Token>, e: Expr, i: nat)
    requires Valid(ts) && Canonical(e) && e.Grouping? && Spells(ts, i, e) && i + Width(e) < |ts|
    ensures UnaryLevel(ts, i) == Parsed(e, i + Width(e))
    decreases e, 0, 0
  {
    BinaryLevelFinds(ts, Equality, e.expression, i + 1);
    UnaryIsPrimary(ts, i);
    PrimaryGroup(ts, i, e.expression, i + 1 + Width(e.expression));
  }

  /** `match` answers whether one of the listed kinds checks. */
  lemma MatchIsSomeCheck(ts: seq<Token>, i: nat, kinds: set<TokenKind>)
    requires i < |ts|
    ensures Match(ts, i, kinds) <==> exists k :: k in kinds && Check(ts, i, k)
  {
    if Match(ts, i, kinds) {
      assert Check(ts, i, ts[i].kind);
    }
  }

  // ---------------------------------------------- every parse is a spelled tree

  lemma {:induction false} BinaryLevelShape(ts: seq<Token>, lv: nat, i: nat)
    requires Valid(ts) && i < |ts| && IsLevel(lv)
    ensures BinaryLevel(ts, lv, i).Parsed? ==> Shaped(ts, i, BinaryLevel(ts, lv, i), lv)
    decreases |ts| - i, 2 * lv + 1
  {
    OperandShape(ts, lv, i);
    match Operand(ts, lv, i)
    case Failed(_) =>
    case Parsed(left, j) => LevelTailShape(ts, lv, i, left, j);
  }

  lemma {:induction false} OperandShape(ts: seq<Token>, lv: nat, i: nat)
    requires Valid(ts) && i < |ts| && IsLevel(lv)
    ensures Operand(ts, lv, i).Parsed? ==> Shaped(ts, i, Operand(ts, lv, i), lv - 1)
    decreases |ts| - i, 2 * lv
  {
    if lv == Factor {
      UnaryLevelShape(ts, i);
    } else {
      BinaryLevelShape(ts, lv - 1, i);
    }
  }

  /** The loop keeps "the tree so far is canonical and spelled from `start`". */
  lemma {:induction false} LevelTailShape(ts: seq<Token>, lv: nat, start: nat, left: Expr, i: nat)
    requires Valid(ts) && i < |ts| && IsLevel(lv)
    requires Canonical(left) && Prec(left) <= lv && Spells(ts, start, left)
    requires i == start + Width(left) && Stops(ts, i, lv - 1)
    ensures LevelTail(ts, lv, left, i).Parsed? ==> Shaped(ts, start, LevelTail(ts, lv, left, i), lv)
    decreases |ts| - i, 1
  {
    OperatorsOfLevel(lv, ts[i].kind);
    if Match(ts, i, Operators(lv)) && i + 1 < |ts| {
      OperandShape(ts, lv, i + 1);
      if Operand(ts, lv, i + 1).Parsed? {
        LevelTailShapeStep(ts, lv, start, left, i);
      }
    }
  }

  /** One round of the loop extends the spelled tree by an operator and a right operand. */
  lemma {:induction false} LevelTailShapeStep(ts: seq<Token>, lv: nat, start: nat, left: Expr, i: nat)
    requires Valid(ts) && i + 1 < |ts| && IsLevel(lv) && OpLevel(ts[i].kind) == lv
    requires Canonical(left) && Prec(left) <= lv && Spells(ts, start, left) && i == start + Width(left)
    requires Shaped(ts, i + 1, Operand(ts, lv, i + 1), lv - 1)
    ensures LevelTail(ts, lv, left, i).Parsed? ==> Shaped(ts, start, LevelTail(ts, lv, left, i), lv)
    decreases |ts| - i, 0
  {
    var right, j := Operand(ts, lv, i + 1).expr, Operand(ts, lv, i + 1).next;
    var e := Binary(left, ts[i], right);
    assert Spells(ts, start, e);
    LevelTailContinues(ts, lv, left, i, right, j);
    LevelTailShape(ts, lv, start, e, j);
  }

  lemma {:induction false} UnaryLevelShape(ts: seq<Token>, i: nat)
    requires Valid(ts) && i < |ts|
    ensures UnaryLevel(ts, i).Parsed? ==> Shaped(ts, i, UnaryLevel(ts, i), 0)
    decreases |ts| - i, 1
  {
    if Match(ts, i, {BANG, MINUS}) {
      UnaryLevelShape(ts, i + 1);
    } else {
      PrimaryShape(ts, i);
    }
  }

  lemma {:induction false} PrimaryShape(ts: seq<Token>, i: nat)
    requires Valid(ts) && i < |ts|
    ensures Primary(ts, i).Parsed? ==> Shaped(ts, i, Primary(ts, i), 0)
    decreases |ts| - i, 0
  {
    if ts[i].kind == LEFT_PAREN {
      BinaryLevelShape(ts, Equality, i + 1);
    }
  }

  // ------------------------------------------------------------- the theorem

  /**
   * The parser is exact: from `i` it returns `e` ending at `j` if and only if
   * `e` is canonical, the tokens spell it, `j` is right after it and the token
   * at `j` is not a binary operator. So every token sequence has at most one
   * reading, and the one it has respects precedence and left-associativity.
   */
  lemma ExpressionExactly(ts: seq<Token>, i: nat, e: Expr, j: nat)
    requires Valid(ts) && i < |ts|
    ensures Expression(ts, i) == Parsed(e, j) <==>
      Canonical(e) && Spells(ts, i, e) && j == i + Width(e) && j < |ts| && OpLevel(ts[j].kind) == 0
  {
    if Canonical(e) && Spells(ts, i, e) && j == i + Width(e) && j < |ts| && OpLevel(ts[j].kind) == 0 {
      BinaryLevelFinds(ts, Equality, e, i);
    }
    BinaryLevelShape(ts, Equality, i);
  }

  /** No token of a spelled canonical tree is EOF. */
  lemma SpelledHasNoEof(ts: seq<Token>, i: nat, e: Expr)
    requires Canonical(e) && Spells(ts, i, e)
    ensures forall k :: i <= k < i + Width(e) ==> ts[k].kind != EOF
  {
    forall k | i <= k < i + Width(e)
      ensures ts[k].kind != EOF
    {
      SpelledTokenNotEof(ts, i, e, k);
    }
  }

  lemma {:induction false} SpelledTokenNotEof(ts: seq<Token>, i: nat, e: Expr, k: nat)
    requires Canonical(e) && Spells(ts, i, e) && i <= k < i + Width(e)
    ensures ts[k].kind != EOF
    decreases e, 1
  {
    match e
    case Literal(v) =>
      assert LiteralSpelling(ts[i], v);
    case Grouping(x) =>
      if i < k < i + 1 + Width(x) {
        SpelledTokenNotEof(ts, i + 1, x, k);
      }
    case Unary(_, x) =>
      if i < k {
        SpelledTokenNotEof(ts, i + 1, x, k);
      }
    case Binary(_, _, _) =>
      BinaryTokenNotEof(ts, i, e, k);
  }

  lemma {:induction false} BinaryTokenNotEof(ts: seq<Token>, i: nat, e: Expr, k: nat)
    requires e.Binary? && Canonical(e) && Spells(ts, i, e) && i <= k < i + Width(e)
    ensures ts[k].kind != EOF
    decreases e, 0
  {
    var j := i + Width(e.left);
    if k < j {
      SpelledTokenNotEof(ts, i, e.left, k);
    } else if k > j {
      SpelledTokenNotEof(ts, j + 1, e.right, k);
    } else {
      assert ts[j] == e.operator && OpLevel(e.operator.kind) > 0;
    }
  }

  /**
   * `check` and `match` never succeed at EOF, so a parse never steps over an
   * EOF token: every token it consumes is another kind, and it stops on a
   * token that exists.
   */
  lemma NeverPastEof(ts: seq<Token>, i: nat)
    requires Valid(ts) && i < |ts| && Expression(ts, i).Parsed?
    ensures Expression(ts, i).next < |ts|
    ensures forall k :: i <= k < Expression(ts, i).next ==> ts[k].kind != EOF
  {
    var r := Expression(ts, i);
    ExpressionExactly(ts, i, r.expr, r.next);
    SpelledHasNoEof(ts, i, r.expr);
  }

  /** A failure in the leftmost unary is the failure of every level above it. */
  lemma {:induction false} LeftmostFailure(ts: seq<Token>, lv: nat, i: nat)
    requires Valid(ts) && i < |ts| && IsLevel(lv) && UnaryLevel(ts, i).Failed?
    ensures BinaryLevel(ts, lv, i) == UnaryLevel(ts, i)
  {
    if lv > Factor {
      LeftmostFailure(ts, lv - 1, i);
    }
  }

  // --------------------------------------------------------------- examples

  lemma BinaryOfLiterals(l: Expr, op: Token, r: Expr)
    requires l.Literal? && r.Literal? && OpLevel(op.kind) > 0
    ensures Canonical(Binary(l, op, r)) && Width(Binary(l, op, r)) == 3
  {
  }

  lemma UnaryOfLiteral(op: Token, x: Expr)
    requires x.Literal? && (op.kind == BANG || op.kind == MINUS)
    ensures Canonical(Unary(op, x)) && Width(Unary(op, x)) == 2
  {
  }

  /** A literal, an operator, then a tighter-binding product of two literals. */
  lemma LiteralOverBinary(l: Expr, op: Token, r: Expr)
    requires l.Literal? && r.Binary? && r.left.Literal? && r.right.Literal?
    requires 0 < OpLevel(r.operator.kind) < OpLevel(op.kind)
    ensures Canonical(Binary(l, op, r)) && Width(Binary(l, op, r)) == 5
  {
    BinaryOfLiterals(r.left, r.operator, r.right);
  }

  /** A binary of two literals, an operator of the same or a looser level, then a literal. */
  lemma BinaryOverLiteral(l: Expr, op: Token, r: Expr)
    requires l.Binary? && l.left.Literal? && l.right.Literal? && r.Literal?
    requires 0 < OpLevel(l.operator.kind) <= OpLevel(op.kind)
    ensures Canonical(Binary(l, op, r)) && Width(Binary(l, op, r)) == 5
  {
    BinaryOfLiterals(l.left, l.operator, l.right);
  }

  /** Five tokens spelling `e`, then EOF, parse exactly as `e`. */
  lemma FiveTokensExactly(ts: seq<Token>, e: Expr)
    requires |ts| == 6 && ts[5].kind == EOF
    requires Canonical(e) && Width(e) == 5 && Spells(ts, 0, e)
    ensures Expression(ts, 0) == Parsed(e, 5)
  {
    assert Valid(ts) && OpLevel(ts[5].kind) == 0;
    ExpressionExactly(ts, 0, e, 5);
  }

  /** `1 + 2 * 3` reads as `1 + (2 * 3)`: factor binds tighter than term. */
  lemma FactorBindsTighter(one: Token, plus: Token, two: Token, star: Token, three: Token, eof: Token)
    requires one.kind == NUMBER && two.kind == NUMBER && three.kind == NUMBER
    requires plus.kind == PLUS && star.kind == STAR && eof.kind == EOF
    ensures Expression([one, plus, two, star, three, eof], 0) ==
      Parsed(Binary(Literal(one.literal), plus, Binary(Literal(two.literal), star, Literal(three.literal))), 5)
  {
    var ts := [one, plus, two, star, three, eof];
    var product := Binary(Literal(two.literal), star, Literal(three.literal));
    var sum := Binary(Literal(one.literal), plus, product);
    assert Spells(ts, 2, Literal(two.literal)) && Spells(ts, 4, Literal(three.literal));
    assert Spells(ts, 2, product);
    assert Spells(ts, 0, Literal(one.literal));
    assert Spells(ts, 0, sum);
    LiteralOverBinary(Literal(one.literal), plus, product);
    FiveTokensExactly(ts, sum);
  }

  /** `10 - 2 - 3` reads as `(10 - 2) - 3`: a level folds from the left. */
  lemma TermIsLeftAssociative(ten: Token, minus1: Token, two: Token, minus2: Token, three: Token, eof: Token)
    requires ten.kind == NUMBER && two.kind == NUMBER && three.kind == NUMBER
    requires minus1.kind == MINUS && minus2.kind == MINUS && eof.kind == EOF
    ensures Expression([ten, minus1, two, minus2, three, eof], 0) ==
      Parsed(Binary(Binary(Literal(ten.literal), minus1, Literal(two.literal)), minus2, Literal(three.literal)), 5)
  {
    var ts := [ten, minus1, two, minus2, three, eof];
    var difference := Binary(Literal(ten.literal), minus1, Literal(two.literal));
    var whole := Binary(difference, minus2, Literal(three.literal));
    assert Spells(ts, 0, Literal(ten.literal)) && Spells(ts, 2, Literal(two.literal));
    assert Spells(ts, 0, difference);
    assert Spells(ts, 4, Literal(three.literal));
    assert Spells(ts, 0, whole);
    BinaryOverLiteral(difference, minus2, Literal(three.literal));
    FiveTokensExactly(ts, whole);
  }

  /** `!!true` reads as `!(!true)`: unary recurses to the right. */
  lemma UnaryNests(bang1: Token, bang2: Token, yes: Token, eof: Token)
    requires bang1.kind == BANG && bang2.kind == BANG && yes.kind == TRUE && eof.kind == EOF
    ensures Expression([bang1, bang2, yes, eof], 0) == Parsed(Unary(bang1, Unary(bang2, Literal(Bool(true)))), 3)
  {
    var ts := [bang1, bang2, yes, eof];
    assert Spells(ts, 2, Literal(Bool(true)));
    assert Spells(ts, 1, Unary(bang2, Literal(Bool(true))));
    assert Spells(ts, 0, Unary(bang1, Unary(bang2, Literal(Bool(true)))));
    UnaryOfLiteral(bang2, Literal(Bool(true)));
    ExpressionExactly(ts, 0, Unary(bang1, Unary(bang2, Literal(Bool(true)))), 3);
  }

  /** `(1` fails at the EOF where `)` was expected. */
  lemma MissingRightParen(open: Token, one: Token, eof: Token)
    requires open.kind == LEFT_PAREN && one.kind == NUMBER && eof.kind == EOF
    ensures Expression([open, one, eof], 0) == Failed(ExpectRightParen(2))
  {
    var ts := [open, one, eof];
    assert Spells(ts, 1, Literal(one.literal));
    ExpressionExactly(ts, 1, Literal(one.literal), 2);
    PrimaryUnclosedGroup(ts, 0, Literal(one.literal), 2);
    UnaryIsPrimary(ts, 0);
    LeftmostFailure(ts, Equality, 0);
  }
}
