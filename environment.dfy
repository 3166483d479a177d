/**
 * The scope stack the evaluator reads and assigns variables through: a stack
 * of maps from names to values, global scope at the bottom, innermost scope
 * on top. `get` and `assign` search from the top down.
 *
 * The functions give the meaning of each operation on a stack value; the
 * class `ScopeStack` performs the operations in place, as the source does on
 * its module-level array, and each method is proved to reach the state the
 * matching function computes.
 */
module Environment {
  import opened Options
  import opened Values

  type Scope = map<string, Value>
  type Scopes = seq<Scope>

  /** The stack a fresh interpreter starts with: one empty global scope. */
  const Global: Scopes := [map[]]

  /**
   * The topmost of the bottom `n` scopes that binds `name`: the index the
   * descending search stops at, or None when it runs out of scopes.
   */
  function FindBelow(scopes: Scopes, name: string, n: nat): (r: Option<nat>)
    requires n <= |scopes|
    ensures r.Some? ==> r.value < n && name in scopes[r.value]
    ensures r.Some? ==> forall k :: r.value < k < n ==> name !in scopes[k]
    ensures r.None? ==> forall k :: 0 <= k < n ==> name !in scopes[k]
  {
    if n == 0 then None
    else if name in scopes[n - 1] then Some(n - 1)
    else FindBelow(scopes, name, n - 1)
  }

  /** The innermost scope that binds `name`. */
  function Find(scopes: Scopes, name: string): Option<nat> {
    FindBelow(scopes, name, |scopes|)
  }

  /** What `get` returns; None where it throws "Undefined variable". */
  function Lookup(scopes: Scopes, name: string): Option<Value> {
    match Find(scopes, name)
    case Some(k) => Some(scopes[k][name])
    case None => None
  }

  /** The stack after `assign`; None where it throws "Undefined variable". */
  function Assigned(scopes: Scopes, name: string, value: Value): Option<Scopes> {
    match Find(scopes, name)
    case Some(k) => Some(scopes[k := scopes[k][name := value]])
    case None => None
  }

  /** The stack after `define`, which writes the top scope. */
  function Defined(scopes: Scopes, name: string, value: Value): Scopes
    requires |scopes| > 0
  {
    scopes[|scopes| - 1 := scopes[|scopes| - 1][name := value]]
  }

  /** The stack after `createInnerEnv`. */
  function Pushed(scopes: Scopes): Scopes {
    scopes + [map[]]
  }

  /** The stack after `destroyInnerEnv`; popping an empty array leaves it empty. */
  function Popped(scopes: Scopes): Scopes {
    if |scopes| == 0 then [] else scopes[..|scopes| - 1]
  }

  /** The source's `nested_envs` with the operations that change it in place. */
  class ScopeStack {
    var scopes: Scopes

    constructor ()
      ensures scopes == Global
    {
      scopes := [map[]];
    }

    method CreateInnerEnv()
      modifies this
      ensures scopes == Pushed(old(scopes))
    {
      scopes := scopes + [map[]];
    }

    method DestroyInnerEnv()
      modifies this
      ensures scopes == Popped(old(scopes))
    {
      if |scopes| > 0 {
        scopes := scopes[..|scopes| - 1];
      }
    }

    /**
     * Binds `name` in the top scope. With every scope popped there is no top
     * scope and the source throws a TypeError; `defined` is false then and
     * nothing changes.
     */
    method Define(name: string, value: Value) returns (defined: bool)
      modifies this
      ensures defined <==> |old(scopes)| > 0
      ensures defined ==> scopes == Defined(old(scopes), name, value)
      ensures !defined ==> scopes == old(scopes)
    {
      if |scopes| == 0 {
        return false;
      }
      var top := |scopes| - 1;
      scopes := scopes[top := scopes[top][name := value]];
      defined := true;
    }

    /**
     * Searches from the top scope down and overwrites the first binding of
     * `name`; `defined` is false where the source throws, and then nothing
     * changes.
     */
    method Assign(name: string, value: Value) returns (defined: bool)
      modifies this
      ensures defined == Assigned(old(scopes), name, value).Some?
      ensures defined ==> scopes == Assigned(old(scopes), name, value).value
      ensures !defined ==> scopes == old(scopes)
    {
      var i := |scopes| - 1;
      while i >= 0
        invariant -1 <= i < |scopes|
        invariant FindBelow(scopes, name, i + 1) == Find(scopes, name)
        decreases i
      {
        if name in scopes[i] {
          scopes := scopes[i := scopes[i][name := value]];
          return true;
        }
        i := i - 1;
      }
      return false;
    }

    /** Searches from the top scope down; None where the source throws. */
    method Get(name: string) returns (r: Option<Value>)
      ensures r == Lookup(scopes, name)
    {
      var i := |scopes| - 1;
      while i >= 0
        invariant -1 <= i < |scopes|
        invariant FindBelow(scopes, name, i + 1) == Find(scopes, name)
        decreases i
      {
        if name in scopes[i] {
          return Some(scopes[i][name]);
        }
        i := i - 1;
      }
      return None;
    }
  }
}
