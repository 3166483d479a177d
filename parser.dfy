/**
 * The recursive-descent expression parser. Every production takes the index
 * of the next unread token and returns the tree it built together with the
 * index after it, as the source threads `curr_idx` through its functions.
 *
 * The precedence cascade is equality > comparison > term > factor > unary >
 * primary. The four binary levels share one definition, indexed by `lv`
 * (Equality = 4 down to Factor = 1), because the source's four functions
 * differ only in their operator sets and in the level they call for operands.
 */
module Parser {
  import opened Options
  import opened Values
  import opened Tokens
  import opened Ast

  /** What the parser reads: the lexer's output, whose last token is EOF. */
  predicate Valid(ts: seq<Token>) {
    |ts| > 0 && ts[|ts| - 1].kind == EOF
  }

  datatype ParseError =
    | ExpectExpression(at: nat)   // primary matched nothing: the source destructures `undefined` and throws
    | ExpectRightParen(at: nat)   // consume(RIGHT_PAREN) found another token and threw

  datatype ParseResult = Parsed(expr: Expr, next: nat) | Failed(error: ParseError)

  // ------------------------------------------------------------ token access

  function Peek(ts: seq<Token>, i: nat): Token
    requires i < |ts|
  {
    ts[i]
  }

  function Previous(ts: seq<Token>, i: nat): Token
    requires 0 < i <= |ts|
  {
    ts[i - 1]
  }

  predicate IsAtEnd(ts: seq<Token>, i: nat)
    requires i < |ts|
  {
    Peek(ts, i).kind == EOF
  }

  /** The token at `i` has kind `kind`; never true at EOF. */
  predicate Check(ts: seq<Token>, i: nat, kind: TokenKind)
    requires i < |ts|
  {
    if IsAtEnd(ts, i) then false else Peek(ts, i).kind == kind
  }

  /**
   * The source's `match`: the kinds are tried in turn and it answers whether
   * one of them checks, so it holds when the token at `i` is not EOF and has
   * one of the listed kinds.
   */
  predicate Match(ts: seq<Token>, i: nat, kinds: set<TokenKind>)
    requires i < |ts|
  {
    !IsAtEnd(ts, i) && Peek(ts, i).kind in kinds
  }

  /** The index after a token of kind `kind`, or None where the source throws. */
  function Consume(ts: seq<Token>, i: nat, kind: TokenKind): Option<nat>
    requires i < |ts|
  {
    if Check(ts, i, kind) then Some(i + 1) else None
  }

  // ------------------------------------------------------------------ levels

  const Factor: nat := 1
  const Term: nat := 2
  const Comparison: nat := 3
  const Equality: nat := 4

  predicate IsLevel(lv: nat) {
    Factor <= lv <= Equality
  }

  /** The operators each binary level loops on. */
  function Operators(lv: nat): set<TokenKind>
    requires IsLevel(lv)
  {
    if lv == Equality then {BANG_EQUAL, EQUAL_EQUAL}
    else if lv == Comparison then {GREATER, GREATER_EQUAL, LESS, LESS_EQUAL}
    else if lv == Term then {MINUS, PLUS}
    else {SLASH, STAR}
  }

  // ------------------------------------------------------------- productions

  /** The source's `expression`: it delegates to `equality`. */
  function Expression(ts: seq<Token>, i: nat): (r: ParseResult)
    requires Valid(ts) && i < |ts|
    ensures r.Parsed? ==> i < r.next < |ts|
    decreases |ts| - i, 2 * Equality + 2
  {
    BinaryLevel(ts, Equality, i)
  }

  /** One binary level: an operand, then the loop that folds further operands in from the left. */
  function BinaryLevel(ts: seq<Token>, lv: nat, i: nat): (r: ParseResult)
    requires Valid(ts) && i < |ts| && IsLevel(lv)
    ensures r.Parsed? ==> i < r.next < |ts|
    decreases |ts| - i, 2 * lv + 1
  {
    match Operand(ts, lv, i)
    case Failed(e) => Failed(e)
    case Parsed(left, j) => LevelTail(ts, lv, left, j)
  }

  /** The next tighter production: the level below, or `unary` under `factor`. */
  function Operand(ts: seq<Token>, lv: nat, i: nat): (r: ParseResult)
    requires Valid(ts) && i < |ts| && IsLevel(lv)
    ensures r.Parsed? ==> i < r.next < |ts|
    decreases |ts| - i, 2 * lv
  {
    if lv == Factor then UnaryLevel(ts, i) else BinaryLevel(ts, lv - 1, i)
  }

  /**
   * The `while` loop of a binary level with `left` built so far: while the
   * token at the cursor is one of the level's operators, step over it, parse
   * the right operand and make `Binary(left, operator, right)` the new left.
   */
  function LevelTail(ts: seq<Token>, lv: nat, left: Expr, i: nat): (r: ParseResult)
    requires Valid(ts) && i < |ts| && IsLevel(lv)
    ensures r.Parsed? ==> i <= r.next < |ts|
    decreases |ts| - i, 0
  {
    if Match(ts, i, Operators(lv)) then
      match Operand(ts, lv, i + 1)
      case Failed(e) => Failed(e)
      case Parsed(right, j) => LevelTail(ts, lv, Binary(left, Previous(ts, i + 1), right), j)
    else
      Parsed(left, i)
  }

  /** The source's `unary`: `!` or `-` applied to a unary, or else a primary. */
  function UnaryLevel(ts: seq<Token>, i: nat): (r: ParseResult)
    requires Valid(ts) && i < |ts|
    ensures r.Parsed? ==> i < r.next < |ts|
    decreases |ts| - i, 1
  {
    if Match(ts, i, {BANG, MINUS}) then
      match UnaryLevel(ts, i + 1)
      case Failed(e) => Failed(e)
      case Parsed(operand, j) => Parsed(Unary(Previous(ts, i + 1), operand), j)
    else
      Primary(ts, i)
  }

  /**
   * The source's `primary`: `false`, `true`, `nil`, a number or string
   * literal, or a parenthesised expression; anything else is a failure.
   */
  function Primary(ts: seq<Token>, i: nat): (r: ParseResult)
    requires Valid(ts) && i < |ts|
    ensures r.Parsed? ==> i < r.next < |ts|
    decreases |ts| - i, 0
  {
    if Match(ts, i, {FALSE}) then
      Parsed(Literal(Bool(false)), i + 1)
    else if Match(ts, i, {TRUE}) then
      Parsed(Literal(Bool(true)), i + 1)
    else if Match(ts, i, {NIL}) then
      Parsed(Literal(Nil), i + 1)
    else if Match(ts, i, {NUMBER, STRING}) then
      Parsed(Literal(Previous(ts, i + 1).literal), i + 1)
    else if Match(ts, i, {LEFT_PAREN}) then
      match Expression(ts, i + 1)
      case Failed(e) => Failed(e)
      case Parsed(inner, j) =>
        match Consume(ts, j, RIGHT_PAREN)
        case None => Failed(ExpectRightParen(j))
        case Some(k) => Parsed(Grouping(inner), k)
    else
      Failed(ExpectExpression(i))
  }

  /** A token that matches is not EOF, so in a valid sequence a token follows it. */
  lemma MatchNotAtEnd(ts: seq<Token>, i: nat, kinds: set<TokenKind>)
    requires Valid(ts) && i < |ts| && Match(ts, i, kinds)
    ensures ts[i].kind != EOF && i + 1 < |ts|
  {
  }

  // ------------------------------------------------------ the loops, imperatively

  /** The source's `expression`, run by the looping levels below. */
  method ParseExpression(ts: seq<Token>, i: nat) returns (r: ParseResult)
    requires Valid(ts) && i < |ts|
    ensures r == Expression(ts, i)
  {
    r := ParseLevel(ts, Equality, i);
  }

  /**
   * The source's `equality`, `comparison`, `term` and `factor`: parse an
   * operand, then loop while an operator of the level follows.
   */
  method ParseLevel(ts: seq<Token>, lv: nat, i: nat) returns (r: ParseResult)
    requires Valid(ts) && i < |ts| && IsLevel(lv)
    ensures r == BinaryLevel(ts, lv, i)
    decreases lv, 1
  {
    r := ParseOperand(ts, lv, i);
    if r.Failed? {
      return;
    }
    var expr := r.expr;
    var current := r.next;
    while Match(ts, current, Operators(lv))
      invariant i < current < |ts|
      invariant LevelTail(ts, lv, expr, current) == BinaryLevel(ts, lv, i)
      decreases |ts| - current
    {
      current := current + 1;
      var operator := Previous(ts, current);
      var right := ParseOperand(ts, lv, current);
      if right.Failed? {
        return right;
      }
      expr := Binary(expr, operator, right.expr);
      current := right.next;
    }
    r := Parsed(expr, current);
  }

  /** The call each level makes for its operands. */
  method ParseOperand(ts: seq<Token>, lv: nat, i: nat) returns (r: ParseResult)
    requires Valid(ts) && i < |ts| && IsLevel(lv)
    ensures r == Operand(ts, lv, i)
    decreases lv, 0
  {
    if lv == Factor {
      r := UnaryLevel(ts, i);
    } else {
      r := ParseLevel(ts, lv - 1, i);
    }
  }
}
