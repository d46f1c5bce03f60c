// When inlining is right, in terms of the program alone.
module Inlinable {
  import opened Common
  import opened Ast
  import opened Semantics
  import opened Effects
  import opened TreeWalk
  import Liveness
  import opened Inline

  /** A proc that does nothing but return the expression.  (When its first statement is a
      block, the rest is never reached.) */
  predicate OnlyReturns(s: Stmt, e: Expr) {
    s.Proc? && !e.Absent? && (s.body == [Return(e)] || (s.body != [] && s.body[0] == Block([Return(e)])))
  }

  /** The names of such procs at the top level. */
  ghost function SimpleNames(program: seq<Stmt>): set<string> {
    set s | s in program && s.Proc? && exists e :: OnlyReturns(s, e) :: s.name
  }

  /** No call of such a proc has arguments with effects, only names and properties are
      called, no such name is assigned, and no property of a call is set. */
  predicate Harmless(names: set<string>, e: Expr) {
    && (e.Call? ==>
          && (e.callee.Variable? || e.callee.Get?)
          && (e.callee.Variable? && e.callee.name in names ==> AllQuiet(e.args)))
    && (e.Set? ==> if e.receiver.Absent? then e.property !in names else !e.receiver.Call?)
  }

  /** Patterns bind no such name and are not calls of such a proc. */
  predicate PlainPattern(names: set<string>, pat: Expr) {
    && (forall i | 0 <= i < |PatternNames(pat)| && PatternNames(pat)[i].Some? :: PatternNames(pat)[i].value !in names)
    && (pat.Call? ==> forall a | a in pat.args :: !a.Call?)
    && (pat.Call? && pat.callee.Variable? ==> pat.callee.name !in names)
  }

  /** A statement binds no such name. */
  predicate BindsOthers(names: set<string>, s: Stmt) {
    match s
    case Let(x, _) => x !in names
    case For(x, _, _) => x !in names
    case Proc(_, sig, _) => forall x | x in sig.params :: x !in names
    case Class(x, _, _) => x !in names
    case Try(_, handlers, _) => forall h | h in handlers :: h.variable !in names
    case Match(_, cases, _) => forall c | c in cases :: PlainPattern(names, c.pattern)
    case _ => true
  }

  /** Procs that only return an expression compute it from their parameters alone, without
      effects; nothing else has their names; and they are called with quiet arguments. */
  ghost predicate IsInlinable(program: seq<Stmt>) {
    var names := SimpleNames(program);
    && (forall s, e | s in program && OnlyReturns(s, e) :: DistinctParams(s.sig.params) && Closed(s.sig.params, e))
    && (forall s, t | s in StmtsIn(program) && t in StmtsIn(program) && s.Proc? && t.Proc? ::
          s.name == t.name && s.name in names ==> s.sig.params == t.sig.params && s.body == t.body)
    && (forall s | s in StmtsIn(program) :: BindsOthers(names, s))
    && (forall e | e in NodesIn(program) :: Harmless(names, e))
  }

  // ---------- the candidates ----------

  lemma SingleIsOnly(s: Stmt, e: Expr)
    requires s.Proc?
    ensures SingleReturn(s.body) == Some(e) <==> OnlyReturns(s, e)
  {
    if SingleReturn(s.body) == Some(e) {
      if s.body[0].Block? {
        assert s.body[0].body == [Return(e)];
      } else {
        assert s.body == [Return(e)];
      }
    }
  }

  /** A candidate is a top-level proc with its own parameters and its own result, which does
      not read the proc's name in any place that is looked at. */
  lemma {:induction false} CandidatesAre(program: seq<Stmt>, c: Candidate) returns (s: Stmt)
    requires c in Candidates(program)
    ensures s in program && s.Proc? && s.name == c.name && s.sig.params == c.params && OnlyReturns(s, c.result)
    ensures (forall n | n in Nodes(c.result) :: Liveness.IsLookedAt(n)) ==> Variable(c.name) !in Nodes(c.result)
  {
    hide References, Nodes, Liveness.IsLookedAt;
    var last := program[|program| - 1];
    if CandidateOf(last) == Some(c) {
      s := last;
      SingleIsOnly(s, c.result);
      if Variable(c.name) in Nodes(c.result) && forall n | n in Nodes(c.result) :: Liveness.IsLookedAt(n) {
        NodesReferenced(c.result, c.name);
      }
    } else {
      s := CandidatesAre(program[..|program| - 1], c);
    }
  }

  lemma {:induction false} NodesReferenced(e: Expr, x: string)
    requires (forall n | n in Nodes(e) :: Liveness.IsLookedAt(n)) && Variable(x) in Nodes(e)
    ensures References(e, x)
    decreases e, 1
  {
    assert e in Nodes(e);
    assert Liveness.IsLookedAt(e);
    if e.Binary? {
      if Variable(x) in Nodes(e.left) { NodesReferenced(e.left, x); } else { NodesReferenced(e.right, x); }
    } else if e.Call? {
      if Variable(x) in Nodes(e.callee) { NodesReferenced(e.callee, x); } else { NodesOfReferenced(e.args, x); }
    } else if e.Array? || e.Tuple? {
      NodesOfReferenced(e.elems, x);
    } else if e.Dict? {
      NodesOfReferenced(e.values, x);
    } else if e.Index? {
      if Variable(x) in Nodes(e.base) { NodesReferenced(e.base, x); } else { NodesReferenced(e.index, x); }
    } else if e.IndexSet? {
      if Variable(x) in Nodes(e.base) { NodesReferenced(e.base, x); }
      else if Variable(x) in Nodes(e.index) { NodesReferenced(e.index, x); }
      else { NodesReferenced(e.value, x); }
    } else if e.Slice? {
      if Variable(x) in Nodes(e.base) { NodesReferenced(e.base, x); }
      else if Variable(x) in Nodes(e.start) { NodesReferenced(e.start, x); }
      else { NodesReferenced(e.end, x); }
    } else if e.Get? {
      NodesReferenced(e.receiver, x);
    } else if e.Set? {
      if Variable(x) in Nodes(e.receiver) { NodesReferenced(e.receiver, x); } else { NodesReferenced(e.value, x); }
    }
  }

  lemma {:induction false} NodesOfReferenced(es: seq<Expr>, x: string)
    requires (forall n | n in NodesOf(es) :: Liveness.IsLookedAt(n)) && Variable(x) in NodesOf(es)
    ensures exists i | 0 <= i < |es| :: References(es[i], x)
    decreases es, 0
  {
    hide References, Nodes, Liveness.IsLookedAt;
    if Variable(x) in Nodes(es[0]) {
      NodesReferenced(es[0], x);
    } else {
      NodesOfReferenced(es[1..], x);
      var i :| 0 <= i < |es[1..]| && References(es[1..][i], x);
      assert es[i + 1] == es[1..][i];
    }
  }

  /** And all of them that do not read their own names are candidates. */
  lemma {:induction false} SimpleAreCandidates(program: seq<Stmt>, s: Stmt, e: Expr)
    requires s in program && OnlyReturns(s, e) && Variable(s.name) !in Nodes(e)
    ensures Candidate(s.name, s.sig.params, e) in Candidates(program)
  {
    hide Nodes, References;
    if s == program[|program| - 1] {
      SingleIsOnly(s, e);
      if References(e, s.name) { ReferenceIsNode(e, s.name); }
    } else {
      SimpleAreCandidates(program[..|program| - 1], s, e);
    }
  }

  lemma {:induction false} ReferenceIsNode(e: Expr, x: string)
    requires References(e, x)
    ensures Variable(x) in Nodes(e)
    decreases e
  {
    if e.Binary? {
      if References(e.left, x) { ReferenceIsNode(e.left, x); } else { ReferenceIsNode(e.right, x); }
    } else if e.Call? {
      if References(e.callee, x) { ReferenceIsNode(e.callee, x); } else { ReferenceIn(e.args, x); }
    } else if e.Array? || e.Tuple? {
      ReferenceIn(e.elems, x);
    } else if e.Dict? {
      ReferenceIn(e.values, x);
    } else if e.Index? {
      if References(e.base, x) { ReferenceIsNode(e.base, x); } else { ReferenceIsNode(e.index, x); }
    } else if e.IndexSet? {
      if References(e.base, x) { ReferenceIsNode(e.base, x); }
      else if References(e.index, x) { ReferenceIsNode(e.index, x); }
      else { ReferenceIsNode(e.value, x); }
    } else if e.Slice? {
      if References(e.base, x) { ReferenceIsNode(e.base, x); }
      else if References(e.start, x) { ReferenceIsNode(e.start, x); }
      else { ReferenceIsNode(e.end, x); }
    } else if e.Get? {
      ReferenceIsNode(e.receiver, x);
    } else if e.Set? {
      if References(e.receiver, x) { ReferenceIsNode(e.receiver, x); } else { ReferenceIsNode(e.value, x); }
    }
  }

  lemma {:induction false} ReferenceIn(es: seq<Expr>, x: string)
    requires exists i | 0 <= i < |es| :: References(es[i], x)
    ensures Variable(x) in NodesOf(es)
    decreases es
  {
    hide References, Nodes;
    if References(es[0], x) {
      ReferenceIsNode(es[0], x);
    } else {
      var i :| 0 <= i < |es| && References(es[i], x);
      assert es[1..][i - 1] == es[i];
      ReferenceIn(es[1..], x);
    }
  }

  lemma FoundIsSimple(program: seq<Stmt>, x: string)
    ensures FindCandidate(Candidates(program), x).Some? ==> x in SimpleNames(program)
  {
    var c := FindCandidate(Candidates(program), x);
    if c.Some? {
      var s := CandidatesAre(program, c.value);
      assert OnlyReturns(s, c.value.result);
    }
  }

  ghost predicate OnlyThese(cs: seq<Candidate>, names: set<string>) {
    forall x | FindCandidate(cs, x).Some? :: x in names
  }

  // ---------- expressions ----------

  lemma {:induction false} QuietPure(cs: seq<Candidate>, e: Expr)
    requires Quiet(e)
    ensures Inline.Pure(cs, e)
    decreases Size(e), 0
  {
    if e.Binary? {
      QuietPure(cs, e.left);
      QuietPure(cs, e.right);
    } else if Entered(e) {
      OperandsSmaller(e);
      AllQuietPure(cs, Operands(e));
    }
  }

  lemma {:induction false} AllQuietPure(cs: seq<Candidate>, es: seq<Expr>)
    requires AllQuiet(es)
    ensures AllPure(cs, es)
    decreases SizeAll(es), 1 + |es|
  {
    hide Quiet, Inline.Pure;
    if es != [] {
      QuietPure(cs, es[0]);
      AllQuietPure(cs, es[1..]);
    }
  }

  /** What is no call stays what it is. */
  lemma KindStays(cs: seq<Candidate>, e: Expr)
    requires !e.Call?
    ensures InlineExpr(cs, e).Absent? <==> e.Absent?
    ensures InlineExpr(cs, e).Variable? <==> e.Variable?
    ensures InlineExpr(cs, e).Get? <==> e.Get?
    ensures e.Variable? ==> InlineExpr(cs, e) == e
    ensures e.Get? ==> InlineExpr(cs, e).property == e.property
    ensures !InlineExpr(cs, e).Call? && (InlineExpr(cs, e).Range? <==> e.Range?)
    ensures e.Range? ==> InlineExpr(cs, e) == e
  {
  }

  ghost predicate AllHarmless(names: set<string>, es: set<Expr>) { forall e | e in es :: Harmless(names, e) }

  lemma {:induction false} SafeExprFrom(cs: seq<Candidate>, names: set<string>, e: Expr)
    requires OnlyThese(cs, names) && AllHarmless(names, Nodes(e))
    ensures SafeExpr(cs, e)
    decreases Size(e), 0
  {
    assert e in Nodes(e);
    assert Harmless(names, e);
    hide AllPure, AllQuiet;
    if e.Binary? || e.NullCoal? {
      SafeExprFrom(cs, names, e.left);
      SafeExprFrom(cs, names, e.right);
    } else if e.OptChain? {
      SafeExprFrom(cs, names, e.receiver);
    } else if e.Call? {
      SafeExprFrom(cs, names, e.callee);
      SafeExprsFrom(cs, names, e.args);
      KindStays(cs, e.callee);
      if e.callee.Variable? && e.callee.name in names { AllQuietPure(cs, e.args); }
    } else if e.Set? && e.receiver.Absent? {
      SafeExprFrom(cs, names, e.value);
    } else {
      OperandsSmaller(e);
      OperandsHarmless(names, e);
      SafeExprsFrom(cs, names, Operands(e));
      if e.Set? { KindStays(cs, e.receiver); }
    }
  }

  lemma OperandsHarmless(names: set<string>, e: Expr)
    requires AllHarmless(names, Nodes(e))
    ensures AllHarmless(names, NodesOf(Operands(e)))
  {
    hide Harmless;
    Liveness.OperandNodes(e);
  }

  lemma {:induction false} SafeExprsFrom(cs: seq<Candidate>, names: set<string>, es: seq<Expr>)
    requires OnlyThese(cs, names) && AllHarmless(names, NodesOf(es))
    ensures SafeExprs(cs, es)
    decreases SizeAll(es), 1 + |es|
  {
    hide SafeExpr, Harmless, Nodes, OnlyThese;
    if es != [] {
      SafeExprFrom(cs, names, es[0]);
      SafeExprsFrom(cs, names, es[1..]);
    }
  }

  // ---------- patterns ----------

  lemma PatternStays(cs: seq<Candidate>, names: set<string>, pat: Expr)
    requires OnlyThese(cs, names) && PlainPattern(names, pat) && Harmless(names, pat)
    ensures SamePattern(pat, InlineExpr(cs, pat)) && NoneBound(cs, PatternNames(pat))
  {
    if pat.Call? {
      KindStays(cs, pat.callee);
      NamesStay(cs, pat.args);
    } else {
      KindStays(cs, pat);
    }
  }

  lemma {:induction false} NamesStay(cs: seq<Candidate>, es: seq<Expr>)
    requires forall e | e in es :: !e.Call?
    ensures NamesOf(InlineAll(cs, es)) == NamesOf(es)
  {
    hide InlineExpr;
    if es != [] {
      KindStays(cs, es[0]);
      NamesStay(cs, es[1..]);
      assert InlineAll(cs, es)[1..] == InlineAll(cs, es[1..]);
    }
  }

  // ---------- statements ----------

  ghost predicate Inside(program: seq<Stmt>, ss: set<Stmt>, es: set<Expr>) {
    ss <= StmtsIn(program) && es <= ExprsIn(program)
  }

  lemma ExprSafe(program: seq<Stmt>, e: Expr)
    requires IsInlinable(program) && e in ExprsIn(program)
    ensures SafeExpr(Candidates(program), e) && Harmless(SimpleNames(program), e)
  {
    hide SafeExpr, Harmless, ExprsIn, StmtsIn, BindsOthers, SimpleNames, Candidates, Closed;
    var names := SimpleNames(program);
    forall n | n in Nodes(e)
      ensures Harmless(names, n)
    {
      assert n in NodesIn(program);
    }
    assert e in Nodes(e);
    forall x
      ensures FindCandidate(Candidates(program), x).Some? ==> x in names
    {
      FoundIsSimple(program, x);
    }
    hide Nodes;
    SafeExprFrom(Candidates(program), names, e);
  }

  lemma NameFree(program: seq<Stmt>, x: string)
    requires x !in SimpleNames(program)
    ensures FindCandidate(Candidates(program), x).None?
  {
    FoundIsSimple(program, x);
  }

  lemma NamesFree(program: seq<Stmt>, xs: seq<string>)
    requires forall x | x in xs :: x !in SimpleNames(program)
    ensures NoneNamed(Candidates(program), xs)
  {
    forall i | 0 <= i < |xs|
      ensures FindCandidate(Candidates(program), xs[i]).None?
    {
      NameFree(program, xs[i]);
    }
  }

  lemma ItIsItself(program: seq<Stmt>, s: Stmt)
    requires IsInlinable(program) && s in StmtsIn(program) && s.Proc?
    ensures IsItself(Candidates(program), s.name, s.sig.params, s.body)
  {
    var c := FindCandidate(Candidates(program), s.name);
    if c.Some? {
      var t := CandidatesAre(program, c.value);
      FoundIsSimple(program, s.name);
      StmtInList(program, t);
      SingleIsOnly(t, c.value.result);
      hide SimpleNames, StmtsIn, Candidates, OnlyReturns, BindsOthers, Harmless, Closed;
      assert s.sig.params == t.sig.params && s.body == t.body;
    }
  }

  lemma {:induction false} StmtSafe(program: seq<Stmt>, s: Stmt)
    requires IsInlinable(program) && Inside(program, StmtsOf(s), ExprsOf(s))
    ensures SafeStmt(Candidates(program), s)
    decreases s, 1
  {
    assert s in StmtsOf(s);
    Binders(program, s);
    hide IsInlinable, SafeExpr, SafeList, SafeCases, SafeHandlers, SafeMethods, SafeExprs, Candidates, IsItself,
         NoneNamed;
    if s.Print? || s.ExprStmt? || s.Return? || s.Raise? {
      ExprSafe(program, s.e);
    } else if s.Let? {
      ExprSafe(program, s.init);
    } else if s.If? {
      ExprSafe(program, s.cond);
      ListSafe(program, s.thn);
      ListSafe(program, s.els);
    } else if s.Block? {
      ListSafe(program, s.body);
    } else if s.While? {
      ExprSafe(program, s.cond);
      ListSafe(program, s.body);
    } else if s.For? {
      ExprSafe(program, s.iterable);
      ListSafe(program, s.body);
    } else if s.Proc? {
      ItIsItself(program, s);
      DefaultsSafe(program, s.sig.defaults);
      ListSafe(program, s.body);
    } else if s.Class? {
      MethodsSafe(program, s.methods);
    } else if s.Try? {
      ListSafe(program, s.block);
      HandlersSafe(program, s.handlers);
      ListSafe(program, s.final);
    } else if s.Match? {
      ExprSafe(program, s.value);
      CasesSafe(program, s.cases);
      ListSafe(program, s.default);
    }
  }

  /** The names that a statement binds are free. */
  lemma Binders(program: seq<Stmt>, s: Stmt)
    requires IsInlinable(program) && s in StmtsIn(program)
    ensures s.Let? || s.Class? ==> NoneNamed(Candidates(program), [s.name])
    ensures s.For? ==> NoneNamed(Candidates(program), [s.variable])
    ensures s.Proc? ==> NoneNamed(Candidates(program), s.sig.params)
    ensures BindsOthers(SimpleNames(program), s)
  {
    assert BindsOthers(SimpleNames(program), s);
    hide StmtsIn, SimpleNames, Candidates, NoneNamed, Harmless;
    if s.Let? || s.Class? { NamesFree(program, [s.name]); }
    if s.For? { NamesFree(program, [s.variable]); }
    if s.Proc? { NamesFree(program, s.sig.params); }
  }

  lemma {:induction false} DefaultsSafe(program: seq<Stmt>, es: seq<Expr>)
    requires IsInlinable(program) && forall e | e in es :: e in ExprsIn(program)
    ensures SafeExprs(Candidates(program), es)
    decreases |es|
  {
    hide IsInlinable, SafeExpr, Candidates, ExprsIn;
    if es != [] {
      ExprSafe(program, es[0]);
      DefaultsSafe(program, es[1..]);
    }
  }

  lemma {:induction false} ListSafe(program: seq<Stmt>, ss: seq<Stmt>)
    requires IsInlinable(program) && Inside(program, StmtsIn(ss), ExprsIn(ss))
    ensures SafeList(Candidates(program), ss)
    decreases ss, 0
  {
    hide IsInlinable, SafeStmt, Candidates, StmtsOf, ExprsOf;
    if ss != [] {
      StmtSafe(program, ss[0]);
      ListSafe(program, ss[1..]);
    }
  }

  lemma {:induction false} MethodsSafe(program: seq<Stmt>, ss: seq<Stmt>)
    requires IsInlinable(program) && Inside(program, StmtsIn(ss), ExprsIn(ss))
    ensures SafeMethods(Candidates(program), ss)
    decreases ss, 0
  {
    hide IsInlinable, Candidates, StmtsOf, ExprsOf, SafeList, SafeExprs, NoneNamed;
    if ss != [] {
      StmtSafe(program, ss[0]);
      MethodsSafe(program, ss[1..]);
    }
  }

  lemma {:induction false} HandlersSafe(program: seq<Stmt>, hs: seq<Handler>)
    requires IsInlinable(program) && Inside(program, StmtsInHandlers(hs), ExprsInHandlers(hs))
    requires forall h | h in hs :: h.variable !in SimpleNames(program)
    ensures SafeHandlers(Candidates(program), hs)
    decreases hs, 0
  {
    hide IsInlinable, Candidates, StmtsIn, ExprsIn, SafeList, NoneNamed, SimpleNames;
    if hs != [] {
      NamesFree(program, [hs[0].variable]);
      ListSafe(program, hs[0].body);
      HandlersSafe(program, hs[1..]);
    }
  }

  lemma {:induction false} CasesSafe(program: seq<Stmt>, cs: seq<Case>)
    requires IsInlinable(program) && Inside(program, StmtsInCases(cs), ExprsInCases(cs))
    requires forall c | c in cs :: PlainPattern(SimpleNames(program), c.pattern)
    ensures SafeCases(Candidates(program), cs)
    decreases cs, 0
  {
    hide IsInlinable, Candidates, StmtsIn, ExprsIn, SafeList, SimpleNames, SafeExpr, PlainPattern, SamePattern,
         NoneBound;
    if cs != [] {
      ExprSafe(program, cs[0].pattern);
      ExprSafe(program, cs[0].guard);
      OnlySimple(program);
      PatternStays(Candidates(program), SimpleNames(program), cs[0].pattern);
      ListSafe(program, cs[0].body);
      CasesSafe(program, cs[1..]);
    }
  }

  lemma OnlySimple(program: seq<Stmt>)
    ensures OnlyThese(Candidates(program), SimpleNames(program))
  {
    hide Candidates, SimpleNames;
    forall x
      ensures FindCandidate(Candidates(program), x).Some? ==> x in SimpleNames(program)
    {
      FoundIsSimple(program, x);
    }
  }

  /** Such a program meets the condition of the simulation. */
  lemma InlinableSafe(program: seq<Stmt>)
    requires IsInlinable(program)
    ensures SafeToInline(program)
  {
    forall c | c in Candidates(program)
      ensures Good(c)
    {
      var s := CandidatesAre(program, c);
    }
    hide IsInlinable, Candidates, SafeList;
    ListSafe(program, program);
  }
}
