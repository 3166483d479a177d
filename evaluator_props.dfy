/**
 * Properties of evaluation: the truthiness rule, the operand checks of each
 * operator, the order in which operands and arguments are evaluated,
 * short-circuiting, assignment through the scope stack, the checks made
 * before a call, and the fact that a tree without assignments leaves the
 * scopes as they were.
 */
module EvaluatorProps {
  import opened Options
  import opened Values
  import opened Tokens
  import opened Ast
  import opened Environment
  import opened EnvironmentProps
  import opened Evaluator
  import ParserProps

  // ------------------------------------------------------------- truthiness

  /** Only `nil` and `false` are falsy; `!` answers the opposite of truthiness. */
  lemma TruthinessRule(v: Value)
    ensures !IsTruthy(v) <==> v == Nil || v == Bool(false)
    ensures ApplyUnary(BANG, v) == Ok(Bool(v == Nil || v == Bool(false)))
  {
  }

  /** Unary minus negates a number and is an error on anything else. */
  lemma NegationNeedsNumber(v: Value)
    ensures ApplyUnary(MINUS, v).Ok? <==> v.Num?
    ensures v.Num? ==> ApplyUnary(MINUS, v) == Ok(Num(-v.n))
    ensures !v.Num? ==> ApplyUnary(MINUS, v) == Error(OperandMustBeNumber)
  {
  }

  // ------------------------------------------------------- operand checks

  /** `==` and `!=` compare any two values and never fail. */
  lemma EqualityNeverFails(left: Value, right: Value)
    ensures ApplyBinary(EQUAL_EQUAL, left, right) == Ok(Bool(left == right))
    ensures ApplyBinary(BANG_EQUAL, left, right) == Ok(Bool(left != right))
  {
  }

  /** Both numbers or both strings: what `<`, `<=`, `>`, `>=` and `+` accept. */
  predicate NumbersOrStrings(left: Value, right: Value) {
    (left.Num? && right.Num?) || (left.Str? && right.Str?)
  }

  /** The comparisons and `+` succeed exactly on two numbers or two strings. */
  lemma OrderingOperandTypes(op: TokenKind, left: Value, right: Value)
    requires op in {GREATER, GREATER_EQUAL, LESS, LESS_EQUAL, PLUS}
    ensures ApplyBinary(op, left, right).Ok? <==> NumbersOrStrings(left, right)
    ensures !NumbersOrStrings(left, right) ==> ApplyBinary(op, left, right) == Error(OperandsMustBeNumbersOrStrings)
  {
  }

  /** `+` adds two numbers and concatenates two strings. */
  lemma PlusAddsOrConcatenates(left: Value, right: Value)
    ensures left.Num? && right.Num? ==> ApplyBinary(PLUS, left, right) == Ok(Num(left.n + right.n))
    ensures left.Str? && right.Str? ==> ApplyBinary(PLUS, left, right) == Ok(Str(left.s + right.s))
  {
  }

  /**
   * `-`, `*` and `/` need two numbers; `/` also needs a non-zero divisor
   * because the quotient must be a real number.
   */
  lemma ArithmeticOperandTypes(op: TokenKind, left: Value, right: Value)
    requires op in {MINUS, STAR, SLASH}
    ensures !(left.Num? && right.Num?) ==> ApplyBinary(op, left, right) == Error(OperandsMustBeNumbers)
    ensures op != SLASH ==> (ApplyBinary(op, left, right).Ok? <==> left.Num? && right.Num?)
    ensures op == SLASH ==> (ApplyBinary(op, left, right).Ok? <==> left.Num? && right.Num? && right.n != 0.0)
    ensures op == SLASH && left.Num? && right.Num? && right.n != 0.0 ==>
      ApplyBinary(op, left, right) == Ok(Num(left.n / right.n))
  {
  }

  /** Any other operator token in a binary node evaluates to `nil`. */
  lemma OtherBinaryOperatorIsNil(op: TokenKind, left: Value, right: Value)
    requires op !in {EQUAL_EQUAL, BANG_EQUAL, GREATER, GREATER_EQUAL, LESS, LESS_EQUAL, PLUS, MINUS, STAR, SLASH}
    ensures ApplyBinary(op, left, right) == Ok(Nil)
  {
  }

  // ------------------------------------------------------------- orderings

  lemma {:induction false} StringLessIrreflexive(a: string)
    ensures !StringLess(a, a)
    decreases |a|
  {
    if |a| > 0 {
      StringLessIrreflexive(a[1..]);
    }
  }

  /** Two different strings are ordered one way round and not the other. */
  lemma {:induction false} StringLessTrichotomy(a: string, b: string)
    requires a != b
    ensures StringLess(a, b) != StringLess(b, a)
    decreases |a|
  {
    if |a| > 0 && |b| > 0 && a[0] == b[0] {
      assert a == [a[0]] + a[1..] && b == [b[0]] + b[1..];
      StringLessTrichotomy(a[1..], b[1..]);
    }
  }

  /**
   * `>=` is `>` or equal and `<=` is `<` or equal, for numbers and for
   * strings alike, and `>` is `<` with the operands swapped.
   */
  lemma ComparisonsAgree(left: Value, right: Value)
    requires NumbersOrStrings(left, right)
    ensures ApplyBinary(GREATER_EQUAL, left, right).value.b <==>
      ApplyBinary(GREATER, left, right).value.b || left == right
    ensures ApplyBinary(LESS_EQUAL, left, right).value.b <==>
      ApplyBinary(LESS, left, right).value.b || left == right
    ensures ApplyBinary(GREATER, left, right) == ApplyBinary(LESS, right, left)
  {
    if left.Str? {
      if left.s == right.s {
        StringLessIrreflexive(left.s);
      } else {
        StringLessTrichotomy(left.s, right.s);
      }
    }
  }

  // ---------------------------------------------------- order of evaluation

  /**
   * A binary node evaluates its right operand first: the left operand runs
   * on the scopes the right one left behind, and is not run at all when the
   * right one fails.
   */
  lemma RightBeforeLeft(s: Scopes, l: Expr, op: Token, r: Expr, call: CallOracle)
    ensures Eval(s, r, call).outcome.Error? ==> Eval(s, Binary(l, op, r), call) == Eval(s, r, call)
    ensures Eval(s, r, call).outcome.Ok? ==>
      var right := Eval(s, r, call);
      var left := Eval(right.scopes, l, call);
      Eval(s, Binary(l, op, r), call) ==
        if left.outcome.Error? then left
        else Evaluation(ApplyBinary(op.kind, left.outcome.value, right.outcome.value), left.scopes)
  {
  }

  /** When the right operand fails, the left operand cannot matter: it never runs. */
  lemma RightFailureHidesLeft(s: Scopes, l1: Expr, l2: Expr, op: Token, r: Expr, call: CallOracle)
    requires Eval(s, r, call).outcome.Error?
    ensures Eval(s, Binary(l1, op, r), call) == Eval(s, Binary(l2, op, r), call)
  {
  }

  /** `(a = 1) == (a = 2)` leaves `a` holding 1, because the left assignment runs last. */
  lemma RightBeforeLeftExample(a: string, eq: Token, call: CallOracle)
    requires eq.kind == EQUAL_EQUAL
    ensures var s := Defined(Global, a, Nil);
      var after := Eval(s, Binary(Assignment(Variable(a), Literal(Num(1.0))), eq, Assignment(Variable(a), Literal(Num(2.0)))), call);
      after.outcome == Ok(Bool(false)) && Lookup(after.scopes, a) == Some(Num(1.0))
  {
    var s := Defined(Global, a, Nil);
    DefineThenGet(Global, a, Nil);
    var s2 := AssignNumber(s, a, 2.0, call);
    var s1 := AssignNumber(s2, a, 1.0, call);
  }

  /** `a = n` on scopes that bind `a` evaluates to n and leaves `a` holding n. */
  lemma AssignNumber(s: Scopes, a: string, n: real, call: CallOracle) returns (t: Scopes)
    requires Lookup(s, a).Some?
    ensures Eval(s, Assignment(Variable(a), Literal(Num(n))), call) == Evaluation(Ok(Num(n)), t)
    ensures Lookup(t, a) == Some(Num(n))
  {
    UndefinedName(s, a, Num(n));
    t := Assigned(s, a, Num(n)).value;
    AssignOnlyInnermost(s, a, Num(n));
  }

  /**
   * `or` returns a truthy left operand and `and` a falsy one without
   * evaluating the right operand; otherwise the result is the right operand,
   * evaluated on the scopes the left one left behind.
   */
  lemma ShortCircuit(s: Scopes, l: Expr, op: Token, r: Expr, call: CallOracle)
    requires Eval(s, l, call).outcome.Ok?
    ensures var left := Eval(s, l, call);
      var stops := if op.kind == OR then IsTruthy(left.outcome.value) else !IsTruthy(left.outcome.value);
      Eval(s, Logical(l, op, r), call) == if stops then left else Eval(left.scopes, r, call)
  {
    var left := Eval(s, l, call);
    LogicalAfterLeft(s, l, op, r, call, left);
  }

  /** ShortCircuit with the left operand's evaluation named, which keeps the proof small. */
  lemma LogicalAfterLeft(s: Scopes, l: Expr, op: Token, r: Expr, call: CallOracle, left: Evaluation<Value>)
    requires left == Eval(s, l, call) && left.outcome.Ok?
    ensures var stops := if op.kind == OR then IsTruthy(left.outcome.value) else !IsTruthy(left.outcome.value);
      Eval(s, Logical(l, op, r), call) == if stops then left else Eval(left.scopes, r, call)
  {
  }

  /** When the left operand decides a logical node, the right operand cannot matter: it never runs. */
  lemma ShortCircuitIgnoresRight(s: Scopes, l: Expr, op: Token, r1: Expr, r2: Expr, call: CallOracle)
    requires Eval(s, l, call).outcome.Ok?
    requires var v := Eval(s, l, call).outcome.value;
      if op.kind == OR then IsTruthy(v) else !IsTruthy(v)
    ensures Eval(s, Logical(l, op, r1), call) == Eval(s, Logical(l, op, r2), call)
    ensures Eval(s, Logical(l, op, r1), call) == Eval(s, l, call)
  {
    var left := Eval(s, l, call);
    LogicalAfterLeft(s, l, op, r1, call, left);
    LogicalAfterLeft(s, l, op, r2, call, left);
  }

  /** Arguments run from left to right, each on the scopes the previous one left behind. */
  lemma {:induction false} ArgumentsLeftToRight(s: Scopes, a: seq<Expr>, b: seq<Expr>, call: CallOracle)
    ensures var first := EvalArguments(s, a, call);
      EvalArguments(s, a + b, call) ==
        if first.outcome.Error? then Evaluation(Error(first.outcome.error), first.scopes)
        else Prepend(first.outcome.value, EvalArguments(first.scopes, b, call))
    decreases a
  {
    if a == [] {
      assert a + b == b;
      PrependNothing(EvalArguments(s, b, call));
    } else {
      assert (a + b)[0] == a[0] && (a + b)[1..] == a[1..] + b;
      var head := Eval(s, a[0], call);
      if head.outcome.Ok? {
        ArgumentsLeftToRight(head.scopes, a[1..], b, call);
        var rest := EvalArguments(head.scopes, a[1..], call);
        if rest.outcome.Ok? {
          PrependOne([head.outcome.value], head.outcome.value, EvalArguments(rest.scopes, b, call));
          PrependConcat([head.outcome.value], rest.outcome.value, EvalArguments(rest.scopes, b, call));
        }
      }
    }
  }

  lemma PrependConcat(xs: seq<Value>, ys: seq<Value>, rest: Evaluation<seq<Value>>)
    ensures Prepend(xs, Prepend(ys, rest)) == Prepend(xs + ys, rest)
  {
    if rest.outcome.Ok? {
      assert xs + (ys + rest.outcome.value) == xs + ys + rest.outcome.value;
    }
  }

  // --------------------------------------------------------- assignment, call

  /**
   * An assignment evaluates its value first, then stores it in the innermost
   * scope that binds the name and returns it; a target that is not a
   * variable, or a name bound nowhere, is an error.
   */
  lemma AssignmentStores(s: Scopes, target: Expr, rhs: Expr, call: CallOracle)
    requires Eval(s, rhs, call).outcome.Ok?
    ensures var value := Eval(s, rhs, call);
      var after := Eval(s, Assignment(target, rhs), call);
      if !target.Variable? then
        after == Evaluation(Error(InvalidAssignmentTarget), value.scopes)
      else if Lookup(value.scopes, target.name).None? then
        after == Evaluation(Error(UndefinedVariable(target.name)), value.scopes)
      else
        after.outcome == value.outcome && Lookup(after.scopes, target.name) == Some(value.outcome.value)
  {
    AssignmentAfterValue(s, target, rhs, call, Eval(s, rhs, call));
  }

  /** AssignmentStores with the right-hand side's evaluation named, which keeps the proof small. */
  lemma AssignmentAfterValue(s: Scopes, target: Expr, rhs: Expr, call: CallOracle, value: Evaluation<Value>)
    requires value == Eval(s, rhs, call) && value.outcome.Ok?
    ensures var after := Eval(s, Assignment(target, rhs), call);
      if !target.Variable? then
        after == Evaluation(Error(InvalidAssignmentTarget), value.scopes)
      else if Lookup(value.scopes, target.name).None? then
        after == Evaluation(Error(UndefinedVariable(target.name)), value.scopes)
      else
        after.outcome == value.outcome && Lookup(after.scopes, target.name) == Some(value.outcome.value)
  {
    if target.Variable? {
      UndefinedName(value.scopes, target.name, value.outcome.value);
      if Lookup(value.scopes, target.name).Some? {
        AssignOnlyInnermost(value.scopes, target.name, value.outcome.value);
      }
    }
  }

  /**
   * A call evaluates the callee and then every argument, and only then
   * checks that the callee is callable and that the argument count equals
   * its arity; the result is what the callable returns.
   */
  lemma CallChecks(s: Scopes, callee: Expr, paren: Token, arguments: seq<Expr>, call: CallOracle)
    requires Eval(s, callee, call).outcome.Ok?
    requires EvalArguments(Eval(s, callee, call).scopes, arguments, call).outcome.Ok?
    ensures var f := Eval(s, callee, call).outcome.value;
      var args := EvalArguments(Eval(s, callee, call).scopes, arguments, call);
      var r := Eval(s, Call(callee, paren, arguments), call);
      r.scopes == args.scopes
      && (!f.Callable? ==> r.outcome == Error(NotCallable))
      && (f.Callable? && f.arity != |arguments| ==> r.outcome == Error(ArityMismatch(f.arity, |arguments|)))
      && (f.Callable? && f.arity == |arguments| ==> r.outcome == Ok(call(f, args.outcome.value)))
  {
  }

  /** A failing callee stops the call before any argument runs. */
  lemma CalleeFailureSkipsArguments(s: Scopes, callee: Expr, paren: Token, a1: seq<Expr>, a2: seq<Expr>, call: CallOracle)
    requires Eval(s, callee, call).outcome.Error?
    ensures Eval(s, Call(callee, paren, a1), call) == Eval(s, Call(callee, paren, a2), call)
    ensures Eval(s, Call(callee, paren, a1), call) == Eval(s, callee, call)
  {
  }

  // ------------------------------------------------------------ no side effects

  /** The tree contains no assignment node. */
  predicate NoAssignment(e: Expr)
    decreases e, 1
  {
    match e
    case Literal(_) => true
    case Grouping(x) => NoAssignment(x)
    case Unary(_, x) => NoAssignment(x)
    case Binary(l, _, r) => NoAssignment(l) && NoAssignment(r)
    case Variable(_) => true
    case Assignment(_, _) => false
    case Logical(l, _, r) => NoAssignment(l) && NoAssignment(r)
    case Call(callee, _, arguments) => NoAssignment(callee) && NoAssignmentIn(arguments)
    case ErrorNode(_) => true
  }

  predicate NoAssignmentIn(arguments: seq<Expr>)
    decreases arguments, 0
  {
    arguments == [] || (NoAssignment(arguments[0]) && NoAssignmentIn(arguments[1..]))
  }

  /** Only assignments change the scopes: any other tree leaves them exactly as they were. */
  lemma {:induction false} OnlyAssignmentChangesScopes(s: Scopes, e: Expr, call: CallOracle)
    requires NoAssignment(e)
    ensures Eval(s, e, call).scopes == s
    decreases e, 1
  {
    match e
    case Literal(_) =>
    case Grouping(x) => OnlyAssignmentChangesScopes(s, x, call);
    case Unary(_, x) => OnlyAssignmentChangesScopes(s, x, call);
    case Binary(l, _, r) =>
      OnlyAssignmentChangesScopes(s, r, call);
      OnlyAssignmentChangesScopes(s, l, call);
    case Variable(_) =>
    case Logical(l, _, r) =>
      OnlyAssignmentChangesScopes(s, l, call);
      OnlyAssignmentChangesScopes(s, r, call);
    case Call(callee, _, arguments) =>
      OnlyAssignmentChangesScopes(s, callee, call);
      ArgumentsKeepScopes(s, arguments, call);
    case ErrorNode(_) =>
  }

  lemma {:induction false} ArgumentsKeepScopes(s: Scopes, arguments: seq<Expr>, call: CallOracle)
    requires NoAssignmentIn(arguments)
    ensures EvalArguments(s, arguments, call).scopes == s
    decreases arguments, 0
  {
    if arguments != [] {
      OnlyAssignmentChangesScopes(s, arguments[0], call);
      ArgumentsKeepScopes(s, arguments[1..], call);
    }
  }

  /**
   * A tree the parser builds mentions no variable, assignment or call, so
   * its value does not depend on the scopes and evaluating it changes none.
   */
  lemma {:induction false} ParsedTreeIsClosed(s: Scopes, t: Scopes, e: Expr, call: CallOracle)
    requires ParserProps.Canonical(e)
    ensures Eval(s, e, call).scopes == s && Eval(t, e, call).scopes == t
    ensures Eval(s, e, call).outcome == Eval(t, e, call).outcome
  {
    match e
    case Literal(_) =>
    case Grouping(x) => ParsedTreeIsClosed(s, t, x, call);
    case Unary(_, x) => ParsedTreeIsClosed(s, t, x, call);
    case Binary(l, op, r) =>
      ParsedTreeIsClosed(s, t, r, call);
      ParsedTreeIsClosed(s, t, l, call);
  }

  /** The command never hands on `nil` itself: it becomes the text "nil". */
  lemma CommandShowsNil(e: Expr, call: CallOracle)
    ensures EvaluateCommand(e, call).Ok? ==> EvaluateCommand(e, call).value != Nil
    ensures Eval(Global, e, call).outcome == Ok(Nil) ==> EvaluateCommand(e, call) == Ok(Str("nil"))
    ensures Eval(Global, e, call).outcome.Error? ==> EvaluateCommand(e, call) == Eval(Global, e, call).outcome
  {
  }
}
