/**
 * The tree printer behind the parse command: a Lisp-like rendering in which
 * binary and unary nodes print as `(operator operands)`, groupings as
 * `(group inner)` and literals as their values, numbers always with a
 * decimal point.
 *
 * The source keeps one renderer per node tag and looks the renderer up by
 * the tag; a tag without a renderer (variable, assignment, logical, call) is
 * a TypeError there, which `Render` reports as None.
 */
module AstPrinter {
  import opened Options
  import opened Values
  import opened Tokens
  import opened Ast
  import opened Decimal

  predicate IsIntegral(x: real) {
    x.Floor as real == x
  }

  /** From 10^21 on, `toFixed` and `String` switch to exponent notation. */
  const ExponentFrom: real := 1000000000000000000000.0

  /** Below 10^-6, `String` switches to exponent notation. */
  const ExponentBelow: real := 0.000001

  /** The most digits a double shows after the point without an exponent. */
  const MaxFractionDigits: nat := 22

  /** `k` decimal places write `f` exactly. */
  predicate ExactIn(f: real, k: nat) {
    IsIntegral(Shift(f, k))
  }

  /** `f` with the decimal point moved `k` places to the right. */
  function Shift(f: real, k: nat): real {
    f * Pow10(k) as real
  }

  /**
   * The least number of decimal places, from `k` up to MaxFractionDigits,
   * that writes `f` exactly.
   */
  function FractionDigits(f: real, k: nat): (r: Option<nat>)
    requires k >= 1
    ensures r.Some? ==> k <= r.value <= MaxFractionDigits && ExactIn(f, r.value)
    ensures r.Some? ==> forall j :: k <= j < r.value ==> !ExactIn(f, j)
    ensures r.None? ==> forall j :: k <= j <= MaxFractionDigits ==> !ExactIn(f, j)
    decreases MaxFractionDigits + 1 - k
  {
    if k > MaxFractionDigits then None
    else if ExactIn(f, k) then Some(k)
    else FractionDigits(f, k + 1)
  }

  /** What follows the decimal point of a number. */
  function Fraction(a: real): (f: real)
    ensures 0.0 <= f < 1.0
  {
    a - a.Floor as real
  }

  /** The first `k` decimal places of a fraction, as an integer. */
  function Scaled(f: real, k: nat): int {
    Shift(f, k).Floor
  }

  /**
   * The text of a non-negative number: integral ones with exactly one
   * decimal place ("7.0"), any other in its shortest decimal form. None for
   * the numbers a double would print with an exponent, or not at all.
   */
  function UnsignedText(a: real): Option<string>
    requires 0.0 <= a
  {
    if a >= ExponentFrom then None
    else if IsIntegral(a) then Some(IntText(a.Floor) + ".0")
    else if a < ExponentBelow then None
    else
      match FractionDigits(Fraction(a), 1)
      case None => None
      case Some(k) =>
        var m := Scaled(Fraction(a), k);
        if 0 <= m then Some(IntText(a.Floor) + "." + PadDigits(m, k)) else None
  }

  /** The source's `printAsFloat` followed by string conversion; a negative number gets a sign. */
  function PrintAsFloat(n: real): Option<string> {
    if n < 0.0 then
      (match UnsignedText(-n)
       case Some(t) => Some("-" + t)
       case None => None)
    else UnsignedText(n)
  }

  /** `nil`, the number through PrintAsFloat, and booleans and strings as they are. */
  function LiteralText(v: Value): Option<string> {
    match v
    case Nil => Some("nil")
    case Bool(b) => Some(if b then "true" else "false")
    case Num(n) => PrintAsFloat(n)
    case Str(s) => Some(s)
    case Callable(_, _) => None
  }

  /** The text of an error node: its tag, then its message, or `null` without one. */
  function ErrorText(message: Option<string>): string {
    "error error : " + (if message.Some? then message.value else "null")
  }

  /**
   * What a renderer produces: a text this model spells out, a text it does
   * not spell out (a number PrintAsFloat leaves undecided, or a callable),
   * or no text at all because a node on the way has no renderer.
   */
  datatype Rendering = Text(text: string) | Unmodelled | NoRenderer

  function Render(e: Expr): Rendering {
    match e
    case ErrorNode(message) => Text(ErrorText(message))
    case Binary(l, op, r) =>
      var left, right := Render(l), Render(r);
      if left.NoRenderer? || right.NoRenderer? then NoRenderer
      else if left.Unmodelled? || right.Unmodelled? then Unmodelled
      else Text("(" + op.lexeme + " " + left.text + " " + right.text + ")")
    case Grouping(x) =>
      (match Render(x)
       case Text(inner) => Text("(group " + inner + ")")
       case other => other)
    case Literal(v) =>
      (match LiteralText(v)
       case Some(text) => Text(text)
       case None => Unmodelled)
    case Unary(op, x) =>
      (match Render(x)
       case Text(operand) => Text("(" + op.lexeme + " " + operand + ")")
       case other => other)
    case _ => NoRenderer
  }

  /**
   * The outcome of the parse command's printing: nothing, a line, a line
   * this model does not spell out, or a crash on a missing renderer.
   */
  datatype PrintOutcome = Silent | Printed(line: string) | PrintedUnmodelled | Crashed

  /** The source's `astPrint`: nothing for an error node without a message, else the rendering. */
  function AstPrint(e: Expr): PrintOutcome {
    if e.ErrorNode? && e.message.None? then Silent
    else match Render(e)
      case Text(text) => Printed(text)
      case Unmodelled => PrintedUnmodelled
      case NoRenderer => Crashed
  }
}
