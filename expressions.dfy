/** The expression tree of the calculator (Calculator/Shared.cs, `Number`,
    `Variable`, `Infix`): evaluation over an environment, variable listing
    and the fully parenthesised rendering. Numbers keep their literal text;
    what a literal and an operator mean numerically is passed in, so that
    only the structure of evaluation is fixed here. */
module Expressions {
  import opened Tokens

  datatype Expr =
    | Number(text: string)
    | Variable(name: char)
    | Infix(lhs: Expr, op: Operators, rhs: Expr)

  /** The outcome of `Eval`: a value, or the failed lookup of a variable
      (the source's dictionary indexer throws). */
  datatype Evaluation<V> = Value(v: V) | MissingVariable(name: char)

  /** `Eval`: a Number yields the value of its literal, a Variable its
      binding, an Infix applies its operator to both children, the left one
      evaluated first. */
  function Eval<V>(e: Expr, env: map<char, V>, value: string -> V, apply: (Operators, V, V) -> V): (r: Evaluation<V>)
    ensures r.MissingVariable? ==> r.name in Vars(e) && r.name !in env
  {
    match e
    case Number(t) => Value(value(t))
    case Variable(n) => if n in env then Value(env[n]) else MissingVariable(n)
    case Infix(l, op, r) =>
      var a := Eval(l, env, value, apply);
      if a.MissingVariable? then a
      else
        var b := Eval(r, env, value, apply);
        if b.MissingVariable? then b
        else Value(apply(op, a.v, b.v))
  }

  /** The variables of a tree, left subtree before right subtree,
      duplicates kept. */
  function Vars(e: Expr): seq<char>
  {
    match e
    case Number(_) => []
    case Variable(n) => [n]
    case Infix(l, _, r) => Vars(l) + Vars(r)
  }

  /** The first name in `vs` that `env` does not bind. */
  function FirstUnbound<V>(vs: seq<char>, env: map<char, V>): (r: Option<char>)
    ensures r.None? <==> forall k :: 0 <= k < |vs| ==> vs[k] in env
    ensures r.Some? ==> r.value in vs && r.value !in env
  {
    if vs == [] then None
    else if vs[0] !in env then Some(vs[0])
    else FirstUnbound(vs[1..], env)
  }

  lemma {:induction false} FirstUnboundAppend<V>(a: seq<char>, b: seq<char>, env: map<char, V>)
    ensures FirstUnbound(a + b, env) == if FirstUnbound(a, env).Some? then FirstUnbound(a, env) else FirstUnbound(b, env)
  {
    if a != [] {
      assert (a + b)[1..] == a[1..] + b;
      FirstUnboundAppend(a[1..], b, env);
    } else {
      assert a + b == b;
    }
  }

  /** Evaluation fails exactly when a variable of the tree is unbound, and
      it reports the leftmost such variable. */
  lemma {:induction false} EvalFailsOnlyOnUnbound<V>(e: Expr, env: map<char, V>, value: string -> V, apply: (Operators, V, V) -> V)
    ensures Eval(e, env, value, apply).MissingVariable? <==> FirstUnbound(Vars(e), env).Some?
    ensures Eval(e, env, value, apply).MissingVariable? ==>
              FirstUnbound(Vars(e), env) == Some(Eval(e, env, value, apply).name)
  {
    match e
    case Number(_) =>
    case Variable(_) =>
    case Infix(l, _, r) =>
      EvalFailsOnlyOnUnbound(l, env, value, apply);
      EvalFailsOnlyOnUnbound(r, env, value, apply);
      FirstUnboundAppend(Vars(l), Vars(r), env);
  }

  /** Bindings of names that do not occur in the tree do not matter. */
  lemma {:induction false} EvalReadsOnlyItsVariables<V>(e: Expr, env1: map<char, V>, env2: map<char, V>, value: string -> V, apply: (Operators, V, V) -> V)
    requires forall n :: n in Vars(e) ==> (n in env1 <==> n in env2)
    requires forall n :: n in Vars(e) && n in env1 ==> env1[n] == env2[n]
    ensures Eval(e, env1, value, apply) == Eval(e, env2, value, apply)
  {
    match e
    case Number(_) =>
    case Variable(_) =>
    case Infix(l, _, r) =>
      EvalReadsOnlyItsVariables(l, env1, env2, value, apply);
      EvalReadsOnlyItsVariables(r, env1, env2, value, apply);
  }

  /** With every variable bound, an Infix node is its operator applied to
      the values of both children. */
  lemma {:induction false} EvalInfixAppliesOperator<V>(l: Expr, op: Operators, r: Expr, env: map<char, V>, value: string -> V, apply: (Operators, V, V) -> V)
    requires forall n :: n in Vars(Infix(l, op, r)) ==> n in env
    ensures Eval(l, env, value, apply).Value? && Eval(r, env, value, apply).Value?
    ensures Eval(Infix(l, op, r), env, value, apply)
         == Value(apply(op, Eval(l, env, value, apply).v, Eval(r, env, value, apply).v))
  {
    EvalFailsOnlyOnUnbound(l, env, value, apply);
    EvalFailsOnlyOnUnbound(r, env, value, apply);
  }

  /** `ListVariables(acc)` as the source computes it: a Number returns the
      accumulator, a Variable appends itself to it, an Infix returns its
      children's lists (each built from an empty list) followed by it. */
  function Collect(e: Expr, acc: seq<char>): (r: seq<char>)
    ensures multiset(r) == multiset(acc) + multiset(Vars(e))
  {
    match e
    case Number(_) => acc
    case Variable(n) => acc + [n]
    case Infix(l, _, r) => Collect(l, []) + Collect(r, []) + acc
  }

  /** What ListVariables returns: the tree's variables, after the
      accumulator for a leaf and before it for an Infix node; from an empty
      accumulator, the left-to-right list of variables. */
  lemma {:induction false} CollectListsVariables(e: Expr, acc: seq<char>)
    ensures Collect(e, acc) == if e.Infix? then Vars(e) + acc else acc + Vars(e)
    ensures Collect(e, []) == Vars(e)
  {
    match e
    case Number(_) =>
    case Variable(_) =>
    case Infix(l, _, r) =>
      CollectListsVariables(l, []);
      CollectListsVariables(r, []);
  }

  /** A `List<Variable>` the caller owns; the model keeps the names. */
  class VariableList {
    var names: seq<char>

    constructor ()
      ensures names == []
    {
      names := [];
    }

    method Add(n: char)
      modifies this
      ensures names == old(names) + [n]
    {
      names := names + [n];
    }
  }

  /** `ListVariables`: a Variable adds itself to the caller's list in place
      and returns that same list; a Number returns the list untouched; an
      Infix leaves it untouched and returns a new list. */
  method ListVariables(e: Expr, variables: VariableList) returns (r: VariableList)
    modifies variables
    decreases e
    ensures r.names == Collect(e, old(variables.names))
    ensures !e.Infix? ==> r == variables
    ensures e.Infix? ==> fresh(r) && variables.names == old(variables.names)
  {
    match e
    case Number(_) =>
      r := variables;
    case Variable(n) =>
      variables.Add(n);
      r := variables;
    case Infix(lhs, _, rhs) =>
      var left := new VariableList();
      left := ListVariables(lhs, left);
      var right := new VariableList();
      right := ListVariables(rhs, right);
      r := new VariableList();
      r.names := left.names + right.names + variables.names;
  }

  /** `ToString`: every Infix node is printed in parentheses with its
      operator's symbol between spaces. A Number prints its literal text. */
  function Show(e: Expr): (r: string)
    ensures e.Infix? ==> 2 <= |r| && r[0] == '(' && r[|r| - 1] == ')'
  {
    match e
    case Number(t) => t
    case Variable(n) => [n]
    case Infix(l, op, r) => "(" + Show(l) + " " + Symbol(op) + " " + Show(r) + ")"
  }

  function InfixCount(e: Expr): nat
  {
    match e
    case Number(_) => 0
    case Variable(_) => 0
    case Infix(l, _, r) => 1 + InfixCount(l) + InfixCount(r)
  }

  ghost predicate LeavesWithoutParentheses(e: Expr)
  {
    match e
    case Number(t) => '(' !in t && ')' !in t
    case Variable(n) => n != '(' && n != ')'
    case Infix(l, _, r) => LeavesWithoutParentheses(l) && LeavesWithoutParentheses(r)
  }

  /** How often `c` occurs in `s`. */
  function Occurrences(s: string, c: char): nat
  {
    if s == [] then 0 else (if s[0] == c then 1 else 0) + Occurrences(s[1..], c)
  }

  lemma {:induction false} OccurrencesAppend(a: string, b: string, c: char)
    ensures Occurrences(a + b, c) == Occurrences(a, c) + Occurrences(b, c)
  {
    if a == [] {
      assert a + b == b;
    } else {
      assert (a + b)[1..] == a[1..] + b;
      OccurrencesAppend(a[1..], b, c);
    }
  }

  lemma {:induction false} OccurrencesAbsent(s: string, c: char)
    requires c !in s
    ensures Occurrences(s, c) == 0
  {
    if s != [] {
      OccurrencesAbsent(s[1..], c);
    }
  }

  /** An Infix node adds exactly one "(" and one ")" around its children. */
  lemma {:induction false} InfixOccurrences(l: Expr, op: Operators, r: Expr, c: char)
    requires c == '(' || c == ')'
    ensures Occurrences(Show(Infix(l, op, r)), c) == 1 + Occurrences(Show(l), c) + Occurrences(Show(r), c)
  {
    var sym := Symbol(op);
    assert c !in sym;
    OccurrencesAbsent(sym, c);
    OccurrencesAbsent(" ", c);
    var a1 := "(" + Show(l);
    var a2 := a1 + " ";
    var a3 := a2 + sym;
    var a4 := a3 + " ";
    var a5 := a4 + Show(r);
    OccurrencesAppend("(", Show(l), c);
    OccurrencesAppend(a1, " ", c);
    OccurrencesAppend(a2, sym, c);
    OccurrencesAppend(a3, " ", c);
    OccurrencesAppend(a4, Show(r), c);
    OccurrencesAppend(a5, ")", c);
  }

  /** The rendering is fully parenthesised: one "(" and one ")" per Infix
      node, and no other parentheses. */
  lemma {:induction false} ShowFullyParenthesised(e: Expr)
    requires LeavesWithoutParentheses(e)
    ensures Occurrences(Show(e), '(') == InfixCount(e)
    ensures Occurrences(Show(e), ')') == InfixCount(e)
  {
    match e
    case Number(t) =>
      OccurrencesAbsent(t, '(');
      OccurrencesAbsent(t, ')');
    case Variable(_) =>
    case Infix(l, op, r) =>
      ShowFullyParenthesised(l);
      ShowFullyParenthesised(r);
      InfixOccurrences(l, op, r, '(');
      InfixOccurrences(l, op, r, ')');
  }
}
