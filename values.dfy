/**
 * Runtime values of the interpreted language. Numbers are exact reals (the
 * source uses IEEE doubles); a callable is an opaque object identified by `id`
 * whose only visible property is its arity.
 */
module Values {
  datatype Value =
    | Nil
    | Bool(b: bool)
    | Num(n: real)
    | Str(s: string)
    | Callable(id: nat, arity: nat)
}
