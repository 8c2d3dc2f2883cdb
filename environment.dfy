/**
 * Variable scopes. An `Environment` is one scope, a mutable map from names to
 * values, with a link to the scope that encloses it. The chain from a scope to
 * the root, innermost first, is a stack of maps; `Bound`, `Lookup`,
 * `AssignNearest` and `Declare` say what the chain's operations mean on that
 * stack, independently of the objects.
 */
module Environments {
  import opened Wrappers
  import opened Values
  import opened Tokens
  import opened RuntimeErrors

  /** One scope's bindings. */
  type Scope = map<string, Value>

  /** Some scope of the stack binds `name`. */
  predicate Bound(scopes: seq<Scope>, name: string)
    ensures Bound(scopes, name) <==> |scopes| > 0 && (name in scopes[0] || Bound(scopes[1..], name))
  {
    exists i :: 0 <= i < |scopes| && name in scopes[i]
  }

  /** The value in the innermost scope that binds `name`, or `Nil` when none does. */
  function Lookup(scopes: seq<Scope>, name: string): (v: Value)
    ensures Bound(scopes, name) ==> exists i :: 0 <= i < |scopes| && name in scopes[i] && v == scopes[i][name]
  {
    if |scopes| == 0 then Nil
    else if name in scopes[0] then scopes[0][name]
    else Lookup(scopes[1..], name)
  }

  /** The stack after overwriting `name` in the innermost scope that binds it. */
  function AssignNearest(scopes: seq<Scope>, name: string, value: Value): (r: seq<Scope>)
    ensures |r| == |scopes|
    ensures forall i :: 0 <= i < |r| ==> r[i].Keys == scopes[i].Keys
  {
    if |scopes| == 0 then []
    else if name in scopes[0] then [scopes[0][name := value]] + scopes[1..]
    else [scopes[0]] + AssignNearest(scopes[1..], name, value)
  }

  /** The stack after binding `name` in the innermost scope only. */
  function Declare(scopes: seq<Scope>, name: string, value: Value): (r: seq<Scope>)
    requires |scopes| > 0
    ensures |r| == |scopes| && r[1..] == scopes[1..]
  {
    [scopes[0][name := value]] + scopes[1..]
  }

  /** `Lookup` finds the innermost binding: the first scope that has the name. */
  lemma {:induction false} LookupIsInnermost(scopes: seq<Scope>, name: string, i: nat)
    requires i < |scopes| && name in scopes[i]
    requires forall j :: 0 <= j < i ==> name !in scopes[j]
    ensures Lookup(scopes, name) == scopes[i][name]
    decreases i
  {
    if i > 0 {
      assert name !in scopes[0];
      LookupIsInnermost(scopes[1..], name, i - 1);
    }
  }

  /** A name that no scope binds looks up as `Nil`. */
  lemma {:induction false} LookupUnbound(scopes: seq<Scope>, name: string)
    requires !Bound(scopes, name)
    ensures Lookup(scopes, name) == Nil
    decreases |scopes|
  {
    if |scopes| > 0 {
      BoundCons(scopes, name);
      LookupUnbound(scopes[1..], name);
    }
  }

  /**
   * Assigning changes what the assigned name looks up to, when it is bound,
   * and nothing else: other names, which names are bound, and the depth of
   * the stack stay as they were.
   */
  lemma {:induction false} AssignNearestEffect(scopes: seq<Scope>, name: string, value: Value, other: string)
    ensures |AssignNearest(scopes, name, value)| == |scopes|
    ensures Bound(AssignNearest(scopes, name, value), other) <==> Bound(scopes, other)
    ensures Lookup(AssignNearest(scopes, name, value), other) ==
      if other == name && Bound(scopes, name) then value else Lookup(scopes, other)
    decreases |scopes|
  {
    if |scopes| > 0 {
      var rest := scopes[1..];
      AssignNearestEffect(rest, name, value, other);
      BoundCons(scopes, other);
      BoundCons(AssignNearest(scopes, name, value), other);
      BoundCons(scopes, name);
      if name in scopes[0] {
        assert AssignNearest(scopes, name, value)[1..] == rest;
      } else {
        assert AssignNearest(scopes, name, value)[1..] == AssignNearest(rest, name, value);
      }
    }
  }

  /** Assigning a name that no scope binds changes nothing. */
  lemma {:induction false} AssignUnbound(scopes: seq<Scope>, name: string, value: Value)
    requires !Bound(scopes, name)
    ensures AssignNearest(scopes, name, value) == scopes
    decreases |scopes|
  {
    if |scopes| > 0 {
      BoundCons(scopes, name);
      AssignUnbound(scopes[1..], name, value);
    }
  }

  /** Declaring binds the name to the value and leaves every other name's value alone. */
  lemma DeclareEffect(scopes: seq<Scope>, name: string, value: Value, other: string)
    requires |scopes| > 0
    ensures Bound(Declare(scopes, name, value), other) <==> other == name || Bound(scopes, other)
    ensures Lookup(Declare(scopes, name, value), other) == if other == name then value else Lookup(scopes, other)
  {
    BoundCons(scopes, other);
    BoundCons(Declare(scopes, name, value), other);
  }

  /** A name is bound in a non-empty stack iff the top binds it or the rest does. */
  lemma BoundCons(scopes: seq<Scope>, name: string)
    requires |scopes| > 0
    ensures Bound(scopes, name) <==> name in scopes[0] || Bound(scopes[1..], name)
  {
    if Bound(scopes[1..], name) {
      var i :| 0 <= i < |scopes[1..]| && name in scopes[1..][i];
      assert name in scopes[i + 1];
    }
  }

  /**
   * One scope of the chain. `parent` is final (`getParent()` is its
   * destructor) and `null` for the global scope; `variables` is updated in
   * place by `init` and `assign`.
   */
  class Environment {
    const parent: Environment?
    var variables: Scope
    /** This scope and all its ancestors. */
    ghost const Repr: set<Environment>

    /** The parent chain is finite and acyclic, and `Repr` is exactly its scopes. */
    ghost predicate Valid()
      decreases Repr
    {
      this in Repr
      && (parent == null ==> Repr == {this})
      && (parent != null ==>
            parent in Repr && this !in parent.Repr && Repr == {this} + parent.Repr && parent.Valid())
    }

    /** The chain as a stack of maps, innermost first. */
    function Scopes(): (r: seq<Scope>)
      reads Repr
      requires Valid()
      ensures |r| > 0 && r[0] == variables
      decreases Repr
    {
      [variables] + (if parent == null then [] else parent.Scopes())
    }

    /** `Environment()`: a global scope with no bindings. */
    constructor Global()
      ensures Valid() && parent == null && Repr == {this} && Scopes() == [map[]]
    {
      parent := null;
      variables := map[];
      Repr := {this};
    }

    /** `Environment(parent)`: an empty scope inside `parent`. */
    constructor Nested(parent: Environment)
      requires parent.Valid()
      ensures Valid() && this.parent == parent && Repr == {this} + parent.Repr
      ensures Scopes() == [map[]] + parent.Scopes()
    {
      this.parent := parent;
      variables := map[];
      Repr := {this} + parent.Repr;
    }

    /** `hasVariable(name)`: this scope or an ancestor binds `name`. */
    function HasVariable(name: string): (r: bool)
      reads Repr
      requires Valid()
      ensures r <==> Bound(Scopes(), name)
      decreases Repr
    {
      BoundCons(Scopes(), name);
      if name !in variables then
        if parent != null then parent.HasVariable(name) else false
      else
        true
    }

    /**
     * `getValue(name)`: the value in the nearest scope that binds `name`; a
     * name bound nowhere gives `null` (`HashMap.get` of a missing key).
     */
    function GetValue(name: string): (r: Value)
      reads Repr
      requires Valid()
      ensures r == Lookup(Scopes(), name)
      decreases Repr
    {
      if name !in variables then
        if parent != null then parent.GetValue(name) else Nil
      else
        variables[name]
    }

    /** `init(name, value)`: binds or rebinds `name` in this scope only. */
    method Init(name: string, value: Value)
      requires Valid()
      modifies this
      ensures variables == old(variables)[name := value]
      ensures Scopes() == Declare(old(Scopes()), name, value)
    {
      variables := variables[name := value];
    }

    /** `init(name)`: binds `name` to `null` in this scope. */
    method InitNil(name: string)
      requires Valid()
      modifies this
      ensures variables == old(variables)[name := Nil]
      ensures Scopes() == Declare(old(Scopes()), name, Nil)
    {
      Init(name, Nil);
    }

    /**
     * `assign(token, value)`: overwrites the binding in the nearest scope that
     * has the name, and then, as written, always throws "Undeclared variable",
     * whether or not a binding was updated. The returned error is the one
     * thrown.
     */
    method Assign(token: Token, value: Value) returns (thrown: RuntimeError)
      requires Valid()
      modifies Repr
      ensures Scopes() == AssignNearest(old(Scopes()), token.lexeme, value)
      ensures thrown == RuntimeError(Some(token), "Undeclared variable " + token.lexeme)
      decreases Repr
    {
      if token.lexeme in variables {
        variables := variables[token.lexeme := value];
      } else if parent != null {
        var _ := parent.Assign(token, value);
      }
      thrown := RuntimeError(Some(token), "Undeclared variable " + token.lexeme);
    }
  }
}
