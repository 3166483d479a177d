/**
 * The tree-walking evaluator. `Eval` gives the meaning of evaluating a tree
 * against a scope stack: the outcome (a value, or the runtime error that
 * makes the interpreter exit) and the stack afterwards, since an assignment
 * inside the tree updates it. `Interpreter.Evaluate` performs the same
 * evaluation on a `ScopeStack` in place, collecting call arguments in a
 * loop, and is proved to agree with `Eval`.
 *
 * Calling a callable runs code this model does not contain; its result is
 * supplied by the parameter `call`, a function of the callee and the
 * argument values.
 */
module Evaluator {
  import opened Options
  import opened Values
  import opened Tokens
  import opened Ast
  import opened Environment

  datatype RuntimeError =
    | OperandMustBeNumber             // unary minus on a non-number
    | OperandsMustBeNumbers           // binary -, * or / on non-numbers
    | OperandsMustBeNumbersOrStrings  // <, <=, >, >= or + on a mixed pair
    | NonFinite                       // x / 0, which has no real value
    | UndefinedVariable(name: string)
    | InvalidAssignmentTarget
    | NotCallable
    | ArityMismatch(expected: nat, got: nat)

  datatype Outcome<+T> = Ok(value: T) | Error(error: RuntimeError)

  /** The outcome of one evaluation and the scope stack after it. */
  datatype Evaluation<+T> = Evaluation(outcome: Outcome<T>, scopes: Scopes)

  type CallOracle = (Value, seq<Value>) -> Value

  // ----------------------------------------------------------- value helpers

  /** `nil` and `false` are falsy; every other value, 0 and "" included, is truthy. */
  predicate IsTruthy(v: Value) {
    if v == Nil then false
    else if v.Bool? then v.b
    else true
  }

  predicate IsNumber(v: Value) {
    v.Num?
  }

  predicate IsString(v: Value) {
    v.Str?
  }

  /** Whether the operand types suit the operator; `==` and `!=` take any pair. */
  predicate CheckOperatorAvailability(op: TokenKind, left: Value, right: Value) {
    match op
    case BANG_EQUAL | EQUAL_EQUAL => true
    case GREATER | GREATER_EQUAL | LESS_EQUAL | LESS | PLUS =>
      (IsNumber(left) && IsNumber(right)) || (IsString(left) && IsString(right))
    case MINUS | SLASH | STAR => IsNumber(left) && IsNumber(right)
    case _ => false
  }

  /** Lexicographic order of strings by character code, as `<` orders strings. */
  predicate StringLess(a: string, b: string)
    decreases |a|
  {
    if |b| == 0 then false
    else if |a| == 0 then true
    else if a[0] != b[0] then a[0] < b[0]
    else StringLess(a[1..], b[1..])
  }

  /** `<` on two numbers or two strings. */
  predicate Less(left: Value, right: Value)
    requires (left.Num? && right.Num?) || (left.Str? && right.Str?)
  {
    if left.Num? then left.n < right.n else StringLess(left.s, right.s)
  }

  // --------------------------------------------------------------- operators

  /** The switch of the binary evaluator, applied to the operand values. */
  function ApplyBinary(op: TokenKind, left: Value, right: Value): Outcome<Value> {
    match op
    case EQUAL_EQUAL => Ok(Bool(left == right))
    case BANG_EQUAL => Ok(Bool(left != right))
    case GREATER =>
      if CheckOperatorAvailability(op, left, right) then Ok(Bool(Less(right, left)))
      else Error(OperandsMustBeNumbersOrStrings)
    case GREATER_EQUAL =>
      if CheckOperatorAvailability(op, left, right) then Ok(Bool(!Less(left, right)))
      else Error(OperandsMustBeNumbersOrStrings)
    case LESS_EQUAL =>
      if CheckOperatorAvailability(op, left, right) then Ok(Bool(!Less(right, left)))
      else Error(OperandsMustBeNumbersOrStrings)
    case LESS =>
      if CheckOperatorAvailability(op, left, right) then Ok(Bool(Less(left, right)))
      else Error(OperandsMustBeNumbersOrStrings)
    case PLUS =>
      if !CheckOperatorAvailability(op, left, right) then Error(OperandsMustBeNumbersOrStrings)
      else if left.Num? then Ok(Num(left.n + right.n))
      else Ok(Str(left.s + right.s))
    case MINUS =>
      if CheckOperatorAvailability(op, left, right) then Ok(Num(left.n - right.n))
      else Error(OperandsMustBeNumbers)
    case SLASH =>
      if !CheckOperatorAvailability(op, left, right) then Error(OperandsMustBeNumbers)
      else if right.n == 0.0 then Error(NonFinite)
      else Ok(Num(left.n / right.n))
    case STAR =>
      if CheckOperatorAvailability(op, left, right) then Ok(Num(left.n * right.n))
      else Error(OperandsMustBeNumbers)
    case _ => Ok(Nil)
  }

  /** The switch of the unary evaluator; an operator it does not list returns the operand. */
  function ApplyUnary(op: TokenKind, right: Value): Outcome<Value> {
    match op
    case BANG => Ok(Bool(!IsTruthy(right)))
    case MINUS => if IsNumber(right) then Ok(Num(-right.n)) else Error(OperandMustBeNumber)
    case _ => Ok(right)
  }

  // -------------------------------------------------------------- evaluation

  /**
   * The stacks have the same depth and each scope binds the same names:
   * evaluation can change the value of a binding but never adds, removes or
   * moves one.
   */
  predicate SameShape(s: Scopes, t: Scopes) {
    Shape(s) == Shape(t)
  }

  /** The names each scope binds, innermost last. */
  function Shape(s: Scopes): (r: seq<set<string>>)
    ensures |r| == |s| && forall k :: 0 <= k < |s| ==> r[k] == s[k].Keys
  {
    seq(|s|, k requires 0 <= k < |s| => s[k].Keys)
  }

  function Eval(s: Scopes, e: Expr, call: CallOracle): (r: Evaluation<Value>)
    ensures SameShape(s, r.scopes)
    decreases e, 1
  {
    match e
    case Literal(v) => Evaluation(Ok(v), s)
    case Grouping(x) => Eval(s, x, call)
    case Unary(op, x) =>
      var operand := Eval(s, x, call);
      if operand.outcome.Error? then operand
      else Evaluation(ApplyUnary(op.kind, operand.outcome.value), operand.scopes)
    case Binary(l, op, r) =>
      var right := Eval(s, r, call);
      if right.outcome.Error? then right
      else
        var left := Eval(right.scopes, l, call);
        if left.outcome.Error? then left
        else Evaluation(ApplyBinary(op.kind, left.outcome.value, right.outcome.value), left.scopes)
    case Variable(name) =>
      (match Lookup(s, name)
       case Some(v) => Evaluation(Ok(v), s)
       case None => Evaluation(Error(UndefinedVariable(name)), s))
    case Assignment(target, rhs) =>
      var value := Eval(s, rhs, call);
      if value.outcome.Error? then value
      else if !target.Variable? then Evaluation(Error(InvalidAssignmentTarget), value.scopes)
      else
        (match Assigned(value.scopes, target.name, value.outcome.value)
         case None => Evaluation(Error(UndefinedVariable(target.name)), value.scopes)
         case Some(t) =>
           AssignedKeepsShape(value.scopes, target.name, value.outcome.value);
           Evaluation(value.outcome, t))
    case Logical(l, op, r) =>
      var left := Eval(s, l, call);
      if left.outcome.Error? then left
      else if op.kind == OR && IsTruthy(left.outcome.value) then left
      else if op.kind != OR && !IsTruthy(left.outcome.value) then left
      else
        var right := Eval(left.scopes, r, call);
        right
    case Call(callee, paren, arguments) =>
      var fun := Eval(s, callee, call);
      if fun.outcome.Error? then Evaluation(Error(fun.outcome.error), fun.scopes)
      else
        var args := EvalArguments(fun.scopes, arguments, call);
        if args.outcome.Error? then Evaluation(Error(args.outcome.error), args.scopes)
        else Evaluation(Invoke(fun.outcome.value, args.outcome.value, call), args.scopes)
    case ErrorNode(_) => Evaluation(Ok(Nil), s)
  }

  /** The arguments, evaluated from left to right; the first error stops the rest. */
  function EvalArguments(s: Scopes, arguments: seq<Expr>, call: CallOracle): (r: Evaluation<seq<Value>>)
    ensures SameShape(s, r.scopes)
    ensures r.outcome.Ok? ==> |r.outcome.value| == |arguments|
    decreases arguments, 0
  {
    if arguments == [] then Evaluation(Ok([]), s)
    else
      var first := Eval(s, arguments[0], call);
      if first.outcome.Error? then Evaluation(Error(first.outcome.error), first.scopes)
      else
        var rest := EvalArguments(first.scopes, arguments[1..], call);
        if rest.outcome.Error? then rest
        else Evaluation(Ok([first.outcome.value] + rest.outcome.value), rest.scopes)
  }

  /** Checked after the arguments: the callee must be callable and take that many arguments. */
  function Invoke(callee: Value, args: seq<Value>, call: CallOracle): Outcome<Value> {
    if !callee.Callable? then Error(NotCallable)
    else if callee.arity != |args| then Error(ArityMismatch(callee.arity, |args|))
    else Ok(call(callee, args))
  }

  lemma AssignedKeepsShape(s: Scopes, name: string, value: Value)
    requires Assigned(s, name, value).Some?
    ensures SameShape(s, Assigned(s, name, value).value)
  {
    var t := Assigned(s, name, value).value;
    assert forall k :: 0 <= k < |s| ==> Shape(s)[k] == Shape(t)[k];
  }

  /**
   * What the evaluate command hands on to be printed: the value of the
   * tree evaluated in a fresh interpreter, with `nil` turned into the text
   * "nil", or the runtime error that makes it exit.
   */
  function EvaluateCommand(e: Expr, call: CallOracle): Outcome<Value> {
    match Eval(Global, e, call).outcome
    case Ok(v) => Ok(if v == Nil then Str("nil") else v)
    case Error(err) => Error(err)
  }

  // -------------------------------------------------------- in place, looping

  class Interpreter {
    const env: ScopeStack

    constructor (env: ScopeStack)
      ensures this.env == env
    {
      this.env := env;
    }

    method Evaluate(e: Expr, call: CallOracle) returns (r: Outcome<Value>)
      modifies env
      ensures Evaluation(r, env.scopes) == Eval(old(env.scopes), e, call)
      decreases e, 1
    {
      match e
      case Literal(v) =>
        r := Ok(v);
      case Grouping(x) =>
        r := Evaluate(x, call);
      case Unary(op, x) =>
        var right := Evaluate(x, call);
        if right.Error? {
          return right;
        }
        r := ApplyUnary(op.kind, right.value);
      case Binary(left, op, right) =>
        var rightValue := Evaluate(right, call);
        if rightValue.Error? {
          return rightValue;
        }
        var leftValue := Evaluate(left, call);
        if leftValue.Error? {
          return leftValue;
        }
        r := ApplyBinary(op.kind, leftValue.value, rightValue.value);
      case Variable(name) =>
        var v := env.Get(name);
        r := if v.Some? then Ok(v.value) else Error(UndefinedVariable(name));
      case Assignment(target, rhs) =>
        var value := Evaluate(rhs, call);
        if value.Error? {
          return value;
        }
        if !target.Variable? {
          return Error(InvalidAssignmentTarget);
        }
        var defined := env.Assign(target.name, value.value);
        r := if defined then value else Error(UndefinedVariable(target.name));
      case Logical(left, op, right) =>
        var leftValue := Evaluate(left, call);
        if leftValue.Error? {
          return leftValue;
        }
        if op.kind == OR {
          if IsTruthy(leftValue.value) {
            return leftValue;
          }
        } else {
          if !IsTruthy(leftValue.value) {
            return leftValue;
          }
        }
        r := Evaluate(right, call);
      case Call(callee, paren, arguments) =>
        var fun := Evaluate(callee, call);
        if fun.Error? {
          return Error(fun.error);
        }
        var args := EvaluateArguments(arguments, call);
        if args.Error? {
          return Error(args.error);
        }
        r := Invoke(fun.value, args.value, call);
      case ErrorNode(_) =>
        r := Ok(Nil);
    }

    /** The argument loop of the call evaluator, pushing each value as it is computed. */
    method EvaluateArguments(arguments: seq<Expr>, call: CallOracle) returns (r: Outcome<seq<Value>>)
      modifies env
      ensures Evaluation(r, env.scopes) == EvalArguments(old(env.scopes), arguments, call)
      decreases arguments, 0
    {
      var values: seq<Value> := [];
      var i := 0;
      assert arguments[0..] == arguments;
      PrependNothing(EvalArguments(env.scopes, arguments, call));
      while i < |arguments|
        invariant 0 <= i <= |arguments| && |values| == i
        invariant EvalArguments(old(env.scopes), arguments, call) ==
          Prepend(values, EvalArguments(env.scopes, arguments[i..], call))
        decreases |arguments| - i
      {
        var v := Evaluate(arguments[i], call);
        assert arguments[i..][0] == arguments[i] && arguments[i..][1..] == arguments[i + 1..];
        if v.Error? {
          return Error(v.error);
        }
        PrependOne(values, v.value, EvalArguments(env.scopes, arguments[i + 1..], call));
        values := values + [v.value];
        i := i + 1;
      }
      assert values + [] == values;
      r := Ok(values);
    }
  }

  /** Evaluation of the remaining arguments, with the values already computed put in front. */
  function Prepend(values: seq<Value>, rest: Evaluation<seq<Value>>): Evaluation<seq<Value>> {
    match rest.outcome
    case Ok(vs) => Evaluation(Ok(values + vs), rest.scopes)
    case Error(err) => rest
  }

  lemma PrependNothing(rest: Evaluation<seq<Value>>)
    ensures Prepend([], rest) == rest
  {
    if rest.outcome.Ok? {
      assert [] + rest.outcome.value == rest.outcome.value;
    }
  }

  lemma PrependOne(values: seq<Value>, v: Value, rest: Evaluation<seq<Value>>)
    ensures Prepend(values, Prepend([v], rest)) == Prepend(values + [v], rest)
  {
    if rest.outcome.Ok? {
      assert values + ([v] + rest.outcome.value) == values + [v] + rest.outcome.value;
    }
  }
}
