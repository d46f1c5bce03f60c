// Expressions whose evaluation changes nothing.
module Effects {
  import opened Ast
  import opened Semantics

  /** No call, assignment or other act anywhere inside. */
  predicate Quiet(e: Expr)
    decreases Size(e), 0
  {
    if e.Binary? || e.NullCoal? then Quiet(e.left) && Quiet(e.right)
    else if e.OptChain? then Quiet(e.receiver)
    else if e.Call? || e.Set? || e.IndexSet? || e.Await? || e.Super? then false
    else
      OperandsSmaller(e);
      AllQuiet(Operands(e))
  }

  predicate AllQuiet(es: seq<Expr>)
    decreases SizeAll(es), 1 + |es|
  {
    es == [] || (Quiet(es[0]) && AllQuiet(es[1..]))
  }

  /** Evaluating a quiet expression leaves no trace, and raises nothing. */
  lemma {:induction false} QuietKeeps(w: World, fuel: nat, e: Expr, st: State)
    requires Quiet(e)
    ensures Eval(w, fuel, e, st).Got? ==> Eval(w, fuel, e, st).st == st
    ensures !Eval(w, fuel, e, st).Threw?
    decreases Size(e), 0
  {
    if e.Binary? || e.NullCoal? {
      QuietKeeps(w, fuel, e.left, st);
      QuietKeeps(w, fuel, e.right, st);
    } else if e.OptChain? {
      QuietKeeps(w, fuel, e.receiver, st);
    } else {
      OperandsSmaller(e);
      AllQuietKeeps(w, fuel, Operands(e), st);
    }
  }

  lemma {:induction false} AllQuietKeeps(w: World, fuel: nat, es: seq<Expr>, st: State)
    requires AllQuiet(es)
    ensures EvalAll(w, fuel, es, st).Got? ==> EvalAll(w, fuel, es, st).st == st
    ensures !EvalAll(w, fuel, es, st).Threw?
    decreases SizeAll(es), 1 + |es|
  {
    if es != [] {
      QuietKeeps(w, fuel, es[0], st);
      AllQuietKeeps(w, fuel, es[1..], st);
    }
  }
}
