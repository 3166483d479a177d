/**
 * Properties of the scope stack: lookup finds the innermost binding,
 * `define` and `assign` change one binding of one scope and nothing else,
 * an undefined name is an error for both `get` and `assign`, and a pushed
 * scope shadows the outer ones until it is popped.
 */
module EnvironmentProps {
  import opened Options
  import opened Values
  import opened Environment

  /** `name` is bound in the same scopes of `s` and `t`, to the same values. */
  predicate SameBinding(s: Scopes, t: Scopes, name: string) {
    |s| == |t| &&
    forall k :: 0 <= k < |s| ==> (name in s[k] <==> name in t[k]) && (name in s[k] ==> s[k][name] == t[k][name])
  }

  lemma {:induction false} FindBelowSameBinding(s: Scopes, t: Scopes, name: string, n: nat)
    requires SameBinding(s, t, name) && n <= |s|
    ensures FindBelow(s, name, n) == FindBelow(t, name, n)
  {
    if n > 0 {
      FindBelowSameBinding(s, t, name, n - 1);
    }
  }

  /** Lookup of a name depends only on where and how that name is bound. */
  lemma LookupSameBinding(s: Scopes, t: Scopes, name: string)
    requires SameBinding(s, t, name)
    ensures Lookup(s, name) == Lookup(t, name)
  {
    FindBelowSameBinding(s, t, name, |s|);
  }

  /** `get` returns the binding of the innermost scope that binds the name. */
  lemma LookupIsInnermost(s: Scopes, name: string, v: Value)
    ensures Lookup(s, name) == Some(v) <==>
      exists k :: 0 <= k < |s| && name in s[k] && s[k][name] == v
        && forall j :: k < j < |s| ==> name !in s[j]
  {
    var r := Find(s, name);
    if r.Some? {
      var k := r.value;
      forall k' | 0 <= k' < |s| && name in s[k'] && forall j :: k' < j < |s| ==> name !in s[j]
        ensures k' == k
      {
      }
    }
  }

  /** A name bound in no scope is an error for `get` and for `assign` alike. */
  lemma UndefinedName(s: Scopes, name: string, v: Value)
    ensures Lookup(s, name).None? <==> forall k :: 0 <= k < |s| ==> name !in s[k]
    ensures Assigned(s, name, v).None? <==> Lookup(s, name).None?
  {
  }

  /** A fresh interpreter has one scope and no bindings. */
  lemma GlobalIsEmpty(name: string)
    ensures |Global| == 1 && Lookup(Global, name).None?
  {
    UndefinedName(Global, name, Nil);
  }

  /** After `define(n, v)`, `get(n)` returns `v`. */
  lemma DefineThenGet(s: Scopes, name: string, v: Value)
    requires |s| > 0
    ensures Lookup(Defined(s, name, v), name) == Some(v)
  {
    assert FindBelow(Defined(s, name, v), name, |s|) == Some(|s| - 1);
  }

  /** `define` leaves every other name as it was, and the depth of the stack too. */
  lemma DefineLeavesOthers(s: Scopes, name: string, v: Value, other: string)
    requires |s| > 0 && other != name
    ensures |Defined(s, name, v)| == |s|
    ensures Lookup(Defined(s, name, v), other) == Lookup(s, other)
  {
    LookupSameBinding(Defined(s, name, v), s, other);
  }

  /**
   * A successful `assign` rewrites the binding in the innermost scope that
   * has the name: `get` then returns the new value, every other scope is
   * unchanged, and no scope gains or loses a name.
   */
  lemma AssignOnlyInnermost(s: Scopes, name: string, v: Value)
    requires Assigned(s, name, v).Some?
    ensures var t := Assigned(s, name, v).value;
      |t| == |s| && Lookup(t, name) == Some(v)
      && t[Find(s, name).value] == s[Find(s, name).value][name := v]
      && (forall k :: 0 <= k < |s| && k != Find(s, name).value ==> t[k] == s[k])
      && (forall k :: 0 <= k < |s| ==> t[k].Keys == s[k].Keys)
  {
    var t := Assigned(s, name, v).value;
    var k := Find(s, name).value;
    FindBelowSameKeys(s, t, name, |s|);
  }

  lemma {:induction false} FindBelowSameKeys(s: Scopes, t: Scopes, name: string, n: nat)
    requires |s| == |t| && n <= |s|
    requires forall k :: 0 <= k < |s| ==> t[k].Keys == s[k].Keys
    ensures FindBelow(s, name, n) == FindBelow(t, name, n)
  {
    if n > 0 {
      assert name in s[n - 1] <==> name in t[n - 1];
      FindBelowSameKeys(s, t, name, n - 1);
    }
  }

  /** `assign` leaves every other name as it was. */
  lemma AssignLeavesOthers(s: Scopes, name: string, v: Value, other: string)
    requires Assigned(s, name, v).Some? && other != name
    ensures Lookup(Assigned(s, name, v).value, other) == Lookup(s, other)
  {
    LookupSameBinding(Assigned(s, name, v).value, s, other);
  }

  /** A pushed scope is empty, so every binding stays visible. */
  lemma PushKeepsBindings(s: Scopes, name: string)
    ensures |Pushed(s)| == |s| + 1
    ensures Lookup(Pushed(s), name) == Lookup(s, name)
  {
    assert FindBelow(Pushed(s), name, |s| + 1) == FindBelow(Pushed(s), name, |s|);
    FindBelowPrefix(Pushed(s), s, name, |s|);
  }

  lemma {:induction false} FindBelowPrefix(s: Scopes, t: Scopes, name: string, n: nat)
    requires n <= |t| <= |s| && t == s[..|t|]
    ensures FindBelow(s, name, n) == FindBelow(t, name, n)
  {
    if n > 0 {
      FindBelowPrefix(s, t, name, n - 1);
    }
  }

  /** A name defined in a pushed scope shadows the outer binding. */
  lemma InnerDefinitionShadows(s: Scopes, name: string, v: Value)
    ensures Lookup(Defined(Pushed(s), name, v), name) == Some(v)
  {
    DefineThenGet(Pushed(s), name, v);
  }

  /** Create, define and destroy leave the stack as it was, so the outer binding is back. */
  lemma PushDefinePop(s: Scopes, name: string, v: Value)
    ensures Popped(Defined(Pushed(s), name, v)) == s
    ensures Lookup(Popped(Defined(Pushed(s), name, v)), name) == Lookup(s, name)
  {
    assert Defined(Pushed(s), name, v)[..|s|] == s;
  }
}
