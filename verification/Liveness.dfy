// When dead code elimination is right, in terms of the program alone.
module Liveness {
  import opened Common
  import opened Ast
  import opened Semantics
  import opened Effects
  import opened Dce
  import opened TreeWalk

  // ---------- what the pass looks at ----------

  /** The kinds of expression in which the pass looks for names. */
  predicate IsLookedAt(e: Expr) {
    !e.Await? && !e.Range? && !e.Unwrap? && !e.NullCoal? && !e.OptChain? && !e.Comptime? && !e.Interp?
  }

  predicate HasGuards(cs: seq<Case>) { exists i | 0 <= i < |cs| :: cs[i].guard != Absent }

  /** The kinds of statement in which it does: no async procs, implementations, annotated,
      compile-time and spawned blocks, and no guards, default values or parent classes. */
  predicate IsWalked(s: Stmt) {
    && !s.AsyncProc? && !s.Impl? && !s.Annotated? && !s.ComptimeBlock? && !s.Spawn?
    && (s.Match? ==> !HasGuards(s.cases))
    && (s.Proc? ==> s.sig.defaults == [])
    && (s.Class? ==> s.parent.None?)
  }

  predicate NothingSkipped(program: seq<Stmt>) {
    && (forall e | e in NodesIn(program) :: IsLookedAt(e))
    && (forall s | s in StmtsIn(program) :: IsWalked(s))
  }

  lemma {:induction false} NodesUsed(e: Expr, x: string)
    requires (forall n | n in Nodes(e) :: IsLookedAt(n)) && Variable(x) in Nodes(e)
    ensures x in UsedExpr(e)
    decreases e, 1
  {
    assert e in Nodes(e);
    assert IsLookedAt(e);
    if e.Binary? {
      if Variable(x) in Nodes(e.left) { NodesUsed(e.left, x); } else { NodesUsed(e.right, x); }
    } else if e.Call? {
      if Variable(x) in Nodes(e.callee) { NodesUsed(e.callee, x); } else { NodesOfUsed(e.args, x); }
    } else if e.Array? || e.Tuple? {
      NodesOfUsed(e.elems, x);
    } else if e.Dict? {
      NodesOfUsed(e.values, x);
    } else if e.Index? {
      if Variable(x) in Nodes(e.base) { NodesUsed(e.base, x); } else { NodesUsed(e.index, x); }
    } else if e.IndexSet? {
      if Variable(x) in Nodes(e.base) { NodesUsed(e.base, x); }
      else if Variable(x) in Nodes(e.index) { NodesUsed(e.index, x); }
      else { NodesUsed(e.value, x); }
    } else if e.Slice? {
      if Variable(x) in Nodes(e.base) { NodesUsed(e.base, x); }
      else if Variable(x) in Nodes(e.start) { NodesUsed(e.start, x); }
      else { NodesUsed(e.end, x); }
    } else if e.Get? {
      NodesUsed(e.receiver, x);
    } else if e.Set? {
      if Variable(x) in Nodes(e.receiver) { NodesUsed(e.receiver, x); } else { NodesUsed(e.value, x); }
    }
  }

  lemma {:induction false} NodesOfUsed(es: seq<Expr>, x: string)
    requires (forall n | n in NodesOf(es) :: IsLookedAt(n)) && Variable(x) in NodesOf(es)
    ensures x in UsedExprs(es)
    decreases es, 0
  {
    hide IsLookedAt;
    if Variable(x) in Nodes(es[0]) { NodesUsed(es[0], x); } else { NodesOfUsed(es[1..], x); }
  }

  /** What is used in an expression of the program is used in the program. */
  lemma {:induction false} StmtUses(s: Stmt, e: Expr)
    requires (forall t | t in StmtsOf(s) :: IsWalked(t)) && e in ExprsOf(s)
    ensures UsedExpr(e) <= UsedStmt(s)
    decreases s, 1
  {
    hide UsedExpr, StmtsIn, ExprsIn, UsedList;
    assert IsWalked(s);
    hide IsWalked;
    if s.If? {
      if e in ExprsIn(s.thn) { ListUses(s.thn, e); } else if e in ExprsIn(s.els) { ListUses(s.els, e); }
    } else if s.While? || s.For? || s.Proc? || s.Block? || s.Defer? {
      if e in ExprsIn(s.body) { ListUses(s.body, e); } else { DirectUse(s, e); }
    } else if s.Class? {
      ListUses(s.methods, e);
    } else if s.Match? {
      if e in ExprsIn(s.default) { ListUses(s.default, e); }
      else if e in ExprsInCases(s.cases) { CasesUse(s, s.cases, e); }
    } else if s.Try? {
      if e in ExprsIn(s.block) { ListUses(s.block, e); }
      else if e in ExprsIn(s.final) { ListUses(s.final, e); }
      else { HandlersUse(s.handlers, e); }
    } else {
      DirectUse(s, e);
    }
  }

  lemma DirectUse(s: Stmt, e: Expr)
    requires IsWalked(s) && e in ExprsOf(s)
    requires s.While? || s.For? || s.Proc? || s.Block? || s.Defer? ==> e !in ExprsIn(s.body)
    requires !s.If? && !s.Class? && !s.Match? && !s.Try?
    ensures UsedExpr(e) <= UsedStmt(s)
  {
    hide UsedExpr, ExprsIn, UsedList;
  }

  lemma {:induction false} ListUses(ss: seq<Stmt>, e: Expr)
    requires (forall t | t in StmtsIn(ss) :: IsWalked(t)) && e in ExprsIn(ss)
    ensures UsedExpr(e) <= UsedList(ss)
    decreases ss, 0
  {
    hide UsedExpr, StmtsOf, ExprsOf, UsedStmt, IsWalked;
    if e in ExprsOf(ss[0]) { StmtUses(ss[0], e); } else { ListUses(ss[1..], e); }
  }

  lemma {:induction false} CasesUse(s: Stmt, cs: seq<Case>, e: Expr)
    requires (forall t | t in StmtsInCases(cs) :: IsWalked(t)) && e in ExprsInCases(cs) && !HasGuards(cs)
    ensures UsedExpr(e) <= UsedCases(cs)
    decreases cs, 0
  {
    hide UsedExpr, StmtsIn, ExprsIn, UsedList, IsWalked;
    if e == cs[0].pattern {
    } else if e == cs[0].guard {
      assert cs[0].guard == Absent;
      AbsentUse();
    } else if e in ExprsIn(cs[0].body) {
      ListUses(cs[0].body, e);
    } else {
      assert forall i | 0 <= i < |cs| - 1 :: cs[1..][i] == cs[i + 1];
      CasesUse(s, cs[1..], e);
    }
  }

  lemma AbsentUse()
    ensures UsedExpr(Absent) == {}
  {
  }

  lemma {:induction false} HandlersUse(hs: seq<Handler>, e: Expr)
    requires (forall t | t in StmtsInHandlers(hs) :: IsWalked(t)) && e in ExprsInHandlers(hs)
    ensures UsedExpr(e) <= UsedHandlers(hs)
    decreases hs, 0
  {
    hide UsedExpr, StmtsIn, ExprsIn, UsedList, IsWalked;
    if e in ExprsIn(hs[0].body) { ListUses(hs[0].body, e); } else { HandlersUse(hs[1..], e); }
  }

  /** The pass finds every variable that the program reads, if there is nothing in which it
      does not look. */
  lemma ReadsFound(program: seq<Stmt>)
    requires NothingSkipped(program)
    ensures Reads(program) <= UsedList(program)
  {
    hide UsedList, UsedExpr, Nodes, ExprsIn, StmtsIn, IsLookedAt, IsWalked;
    forall x | x in Reads(program)
      ensures x in UsedList(program)
    {
      var n :| n in NodesIn(program) && n.Variable? && n.name == x;
      var e :| e in ExprsIn(program) && n in Nodes(e);
      assert n == Variable(x);
      forall m | m in Nodes(e)
        ensures IsLookedAt(m)
      {
        assert m in NodesIn(program);
      }
      NodesUsed(e, x);
      ListUses(program, e);
    }
  }

  // ---------- when the pass is right ----------

  /** Effects are not hidden: an act is the whole initialiser, or an operand of an operator, an
      index or an array. */
  predicate EffectsShow(e: Expr)
    decreases e
  {
    if e.Call? || e.Set? || e.IndexSet? || e.Await? then true
    else if e.Binary? then EffectsShow(e.left) && EffectsShow(e.right)
    else if e.Index? then EffectsShow(e.base) && EffectsShow(e.index)
    else if e.Array? then forall i | 0 <= i < |e.elems| :: EffectsShow(e.elems[i])
    else Quiet(e)
  }

  lemma {:induction false} ShownOrQuiet(e: Expr)
    requires EffectsShow(e)
    ensures HasSideEffects(e) || Quiet(e)
    decreases e
  {
    if e.Binary? {
      ShownOrQuiet(e.left);
      ShownOrQuiet(e.right);
    } else if e.Index? {
      ShownOrQuiet(e.base);
      ShownOrQuiet(e.index);
      if Quiet(e.base) && Quiet(e.index) { EachQuiet([e.base, e.index]); }
    } else if e.Array? {
      forall i | 0 <= i < |e.elems|
        ensures HasSideEffects(e.elems[i]) || Quiet(e.elems[i])
      {
        ShownOrQuiet(e.elems[i]);
      }
      if forall i | 0 <= i < |e.elems| :: !HasSideEffects(e.elems[i]) { EachQuiet(e.elems); }
    }
  }

  lemma {:induction false} EachQuiet(es: seq<Expr>)
    requires forall i | 0 <= i < |es| :: Quiet(es[i])
    ensures AllQuiet(es)
    decreases |es|
  {
    if es != [] { EachQuiet(es[1..]); }
  }

  /** The names of a program's own making that the pass may drop: unread variables whose
      initialisers show their effects; and methods are read as if they were variables. */
  predicate MayLose(names: set<string>, s: Stmt) {
    && (s.Let? ==> s.name in names || EffectsShow(s.init))
    && (s.Class? ==> forall m | m in s.methods :: m.Proc? && m.name in names)
  }

  /** Nothing is skipped, what is assigned is read somewhere, and nothing with a hidden effect
      and no method is dropped. */
  predicate Eliminable(program: seq<Stmt>) {
    && NothingSkipped(program)
    && Assigns(program) <= Reads(program)
    && forall s | s in StmtsIn(program) :: MayLose(Reads(program), s)
  }

  /** Names in an expression are read or assigned there. */
  lemma {:induction false} NamesAreNodes(e: Expr, x: string)
    requires x in NamesExpr(e)
    ensures Variable(x) in Nodes(e) || exists n :: n in Nodes(e) && n.Set? && n.receiver.Absent? && n.property == x
    decreases Size(e), 0
  {
    if e.Variable? {
    } else if e.Binary? || e.NullCoal? {
      if x in NamesExpr(e.left) { NamesAreNodes(e.left, x); } else { NamesAreNodes(e.right, x); }
    } else if e.OptChain? {
      NamesAreNodes(e.receiver, x);
    } else if e.Call? {
      if x in NamesExpr(e.callee) { NamesAreNodes(e.callee, x); } else { NamesAreNodesOf(e.args, x); }
    } else if e.Set? && e.receiver.Absent? {
      if x in NamesExpr(e.value) { NamesAreNodes(e.value, x); } else { assert e in Nodes(e); }
    } else {
      OperandsSmaller(e);
      NamesAreNodesOf(Operands(e), x);
      OperandNodes(e);
    }
  }

  lemma OperandNodes(e: Expr)
    ensures NodesOf(Operands(e)) <= Nodes(e)
  {
    hide NodesOf;
    var es := Operands(e);
    if |es| == 1 { ThreeNodes(es[0], e, e); }
    if |es| == 2 { ThreeNodes(es[0], es[1], e); }
    if |es| == 3 { ThreeNodes(es[0], es[1], es[2]); }
    NoNodes();
  }

  lemma NoNodes()
    ensures NodesOf([]) == {}
  {
  }

  lemma ThreeNodes(a: Expr, b: Expr, c: Expr)
    ensures NodesOf([a]) == Nodes(a) && NodesOf([a, b]) == Nodes(a) + Nodes(b)
    ensures NodesOf([a, b, c]) == Nodes(a) + Nodes(b) + Nodes(c)
  {
    hide Nodes;
    assert [a, b, c][1..] == [b, c] && [b, c][1..] == [c] && [a, b][1..] == [b];
    assert [c][1..] == [] && [b][1..] == [] && [a][1..] == [];
    assert NodesOf([c]) == Nodes(c) && NodesOf([b]) == Nodes(b);
  }

  lemma {:induction false} NamesAreNodesOf(es: seq<Expr>, x: string)
    requires x in NamesExprs(es)
    ensures Variable(x) in NodesOf(es)
            || exists n :: n in NodesOf(es) && n.Set? && n.receiver.Absent? && n.property == x
    decreases SizeAll(es), 1 + |es|
  {
    hide NamesExpr, Nodes;
    if x in NamesExpr(es[0]) { NamesAreNodes(es[0], x); } else { NamesAreNodesOf(es[1..], x); }
  }

  // ---------- which gives the condition of the simulation ----------

  predicate Local(used: set<string>, s: Stmt) {
    && (s.Let? ==> Keep(used, s) || Quiet(s.init))
    && (s.Class? ==> s.parent.None? && forall m | m in s.methods :: m.Proc? && m.name in used)
  }

  ghost predicate AllLocal(used: set<string>, ss: set<Stmt>) { forall s | s in ss :: Local(used, s) }

  ghost predicate AllNamed(used: set<string>, es: set<Expr>) { forall e | e in es :: NamesExpr(e) <= used }

  lemma {:induction false} SafeFrom(used: set<string>, s: Stmt)
    requires AllLocal(used, StmtsOf(s)) && AllNamed(used, ExprsOf(s))
    ensures SafeStmt(used, s)
    decreases s, 1
  {
    hide NamesExpr, StmtsIn, ExprsIn, SafeList, StmtsInCases, ExprsInCases, StmtsInHandlers, ExprsInHandlers;
    assert Local(used, s);
    if s.If? {
      SafeListFrom(used, s.thn);
      SafeListFrom(used, s.els);
    } else if s.Block? || s.While? || s.For? {
      SafeListFrom(used, s.body);
    } else if s.Proc? {
      SafeListFrom(used, s.body);
      DefaultsNamed(used, s.sig.defaults);
    } else if s.Class? {
      SafeMethodsFrom(used, s.methods);
    } else if s.Try? {
      SafeListFrom(used, s.block);
      SafeHandlersFrom(used, s.handlers);
      SafeListFrom(used, s.final);
    } else if s.Match? {
      SafeCasesFrom(used, s.cases);
      SafeListFrom(used, s.default);
    }
  }

  lemma {:induction false} DefaultsNamed(used: set<string>, es: seq<Expr>)
    requires forall e | e in es :: NamesExpr(e) <= used
    ensures NamesExprs(es) <= used
    decreases |es|
  {
    hide NamesExpr;
    if es != [] { DefaultsNamed(used, es[1..]); }
  }

  lemma {:induction false} SafeListFrom(used: set<string>, ss: seq<Stmt>)
    requires AllLocal(used, StmtsIn(ss)) && AllNamed(used, ExprsIn(ss))
    ensures SafeList(used, ss)
    decreases ss, 0
  {
    hide NamesExpr, StmtsOf, ExprsOf, SafeStmt, Local;
    if ss != [] {
      SafeFrom(used, ss[0]);
      SafeListFrom(used, ss[1..]);
    }
  }

  lemma {:induction false} SafeMethodsFrom(used: set<string>, ss: seq<Stmt>)
    requires AllLocal(used, StmtsIn(ss)) && AllNamed(used, ExprsIn(ss))
    requires forall m | m in ss :: m.Proc? && m.name in used
    ensures SafeMethods(used, ss)
    decreases ss, 0
  {
    hide NamesExpr, StmtsOf, ExprsOf, SafeStmt, Local;
    if ss != [] {
      SafeFrom(used, ss[0]);
      SafeMethodsFrom(used, ss[1..]);
    }
  }

  lemma {:induction false} SafeHandlersFrom(used: set<string>, hs: seq<Handler>)
    requires AllLocal(used, StmtsInHandlers(hs)) && AllNamed(used, ExprsInHandlers(hs))
    ensures SafeHandlers(used, hs)
    decreases hs, 0
  {
    hide NamesExpr, StmtsIn, ExprsIn, SafeList, Local;
    if hs != [] {
      SafeListFrom(used, hs[0].body);
      SafeHandlersFrom(used, hs[1..]);
    }
  }

  lemma {:induction false} SafeCasesFrom(used: set<string>, cs: seq<Case>)
    requires AllLocal(used, StmtsInCases(cs)) && AllNamed(used, ExprsInCases(cs))
    ensures SafeCases(used, cs)
    decreases cs, 0
  {
    hide NamesExpr, StmtsIn, ExprsIn, SafeList, Local;
    if cs != [] {
      SafeListFrom(used, cs[0].body);
      SafeCasesFrom(used, cs[1..]);
    }
  }

  /** A program that may be eliminated meets the condition of the simulation. */
  lemma EliminableSafe(program: seq<Stmt>)
    requires Eliminable(program)
    ensures SafeList(UsedList(program), program)
  {
    hide UsedList, NamesExpr, Nodes, ExprsIn, StmtsIn, NothingSkipped, EffectsShow, Quiet;
    var used := UsedList(program);
    ReadsFound(program);
    forall s | s in StmtsIn(program)
      ensures Local(used, s)
    {
      LocalFrom(program, used, s);
    }
    forall e | e in ExprsIn(program)
      ensures NamesExpr(e) <= used
    {
      forall x | x in NamesExpr(e)
        ensures x in used
      {
        NamesAreNodes(e, x);
        NodesAreRead(program, e, x);
      }
    }
    SafeListFrom(used, program);
  }

  lemma NodesAreRead(program: seq<Stmt>, e: Expr, x: string)
    requires e in ExprsIn(program) && Assigns(program) <= Reads(program)
    requires Variable(x) in Nodes(e) || exists n :: n in Nodes(e) && n.Set? && n.receiver.Absent? && n.property == x
    ensures x in Reads(program)
  {
    hide Nodes, ExprsIn;
    if Variable(x) in Nodes(e) {
      assert Variable(x) in NodesIn(program);
    } else {
      var n :| n in Nodes(e) && n.Set? && n.receiver.Absent? && n.property == x;
      assert n in NodesIn(program);
      assert x in Assigns(program);
    }
  }

  lemma LocalFrom(program: seq<Stmt>, used: set<string>, s: Stmt)
    requires NothingSkipped(program) && s in StmtsIn(program) && MayLose(Reads(program), s) && Reads(program) <= used
    ensures Local(used, s)
  {
    hide StmtsIn, Reads, Quiet, EffectsShow, HasSideEffects;
    assert IsWalked(s);
    if s.Let? && s.name !in used { ShownOrQuiet(s.init); }
  }
}
