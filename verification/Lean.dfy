// What dead code elimination leaves: nothing that is seen to be dead.
module Lean {
  import opened Common
  import opened Ast
  import opened Semantics
  import opened Effects
  import opened Dce
  import opened TreeWalk

  // ---------- what counts as used is read ----------

  lemma {:induction false} UsedAreNodes(e: Expr, x: string)
    requires x in UsedExpr(e)
    ensures Variable(x) in Nodes(e)
    decreases e, 1
  {
    if e.Binary? {
      if x in UsedExpr(e.left) { UsedAreNodes(e.left, x); } else { UsedAreNodes(e.right, x); }
    } else if e.Call? {
      if x in UsedExpr(e.callee) { UsedAreNodes(e.callee, x); } else { UsedAreNodesOf(e.args, x); }
    } else if e.Array? || e.Tuple? {
      UsedAreNodesOf(e.elems, x);
    } else if e.Dict? {
      UsedAreNodesOf(e.values, x);
    } else if e.Index? {
      if x in UsedExpr(e.base) { UsedAreNodes(e.base, x); } else { UsedAreNodes(e.index, x); }
    } else if e.IndexSet? {
      if x in UsedExpr(e.base) { UsedAreNodes(e.base, x); }
      else if x in UsedExpr(e.index) { UsedAreNodes(e.index, x); }
      else { UsedAreNodes(e.value, x); }
    } else if e.Slice? {
      if x in UsedExpr(e.base) { UsedAreNodes(e.base, x); }
      else if x in UsedExpr(e.start) { UsedAreNodes(e.start, x); }
      else { UsedAreNodes(e.end, x); }
    } else if e.Get? {
      UsedAreNodes(e.receiver, x);
    } else if e.Set? {
      if x in UsedExpr(e.receiver) { UsedAreNodes(e.receiver, x); } else { UsedAreNodes(e.value, x); }
    }
  }

  lemma {:induction false} UsedAreNodesOf(es: seq<Expr>, x: string)
    requires x in UsedExprs(es)
    ensures Variable(x) in NodesOf(es)
    decreases es, 0
  {
    hide UsedExpr, Nodes;
    if x in UsedExpr(es[0]) { UsedAreNodes(es[0], x); } else { UsedAreNodesOf(es[1..], x); }
  }

  lemma {:induction false} UsedInStmt(s: Stmt, x: string) returns (e: Expr)
    requires x in UsedStmt(s)
    ensures e in ExprsOf(s) && x in UsedExpr(e)
    decreases s, 1
  {
    hide UsedExpr, ExprsIn, UsedList;
    if s.Print? || s.ExprStmt? || s.Return? || s.Raise? || s.Yield? {
      e := s.e;
    } else if s.Let? {
      e := s.init;
    } else if s.If? {
      if x in UsedExpr(s.cond) { e := s.cond; }
      else if x in UsedList(s.thn) { e := UsedInList(s.thn, x); }
      else { e := UsedInList(s.els, x); }
    } else if s.While? && x in UsedExpr(s.cond) {
      e := s.cond;
    } else if s.For? && x in UsedExpr(s.iterable) {
      e := s.iterable;
    } else if s.Match? {
      if x in UsedExpr(s.value) { e := s.value; }
      else if x in UsedCases(s.cases) { e := UsedInCases(s.cases, x); }
      else { e := UsedInList(s.default, x); }
    } else if s.Try? {
      if x in UsedList(s.block) { e := UsedInList(s.block, x); }
      else if x in UsedHandlers(s.handlers) { e := UsedInHandlers(s.handlers, x); }
      else { e := UsedInList(s.final, x); }
    } else if s.Class? {
      e := UsedInList(s.methods, x);
    } else {
      e := UsedInList(s.body, x);
    }
  }

  lemma {:induction false} UsedInList(ss: seq<Stmt>, x: string) returns (e: Expr)
    requires x in UsedList(ss)
    ensures e in ExprsIn(ss) && x in UsedExpr(e)
    decreases ss, 0
  {
    hide UsedExpr, ExprsOf, UsedStmt;
    if x in UsedStmt(ss[0]) { e := UsedInStmt(ss[0], x); } else { e := UsedInList(ss[1..], x); }
  }

  lemma {:induction false} UsedInCases(cs: seq<Case>, x: string) returns (e: Expr)
    requires x in UsedCases(cs)
    ensures e in ExprsInCases(cs) && x in UsedExpr(e)
    decreases cs, 0
  {
    hide UsedExpr, ExprsIn, UsedList;
    if x in UsedExpr(cs[0].pattern) { e := cs[0].pattern; }
    else if x in UsedList(cs[0].body) { e := UsedInList(cs[0].body, x); }
    else { e := UsedInCases(cs[1..], x); }
  }

  lemma {:induction false} UsedInHandlers(hs: seq<Handler>, x: string) returns (e: Expr)
    requires x in UsedHandlers(hs)
    ensures e in ExprsInHandlers(hs) && x in UsedExpr(e)
    decreases hs, 0
  {
    hide UsedExpr, ExprsIn, UsedList;
    if x in UsedList(hs[0].body) { e := UsedInList(hs[0].body, x); } else { e := UsedInHandlers(hs[1..], x); }
  }

  /** The pass takes for used only what the program reads. */
  lemma UsedIsRead(program: seq<Stmt>)
    ensures UsedList(program) <= Reads(program)
  {
    hide UsedList, UsedExpr, ExprsIn, Nodes;
    forall x | x in UsedList(program)
      ensures x in Reads(program)
    {
      var e := UsedInList(program, x);
      UsedAreNodes(e, x);
      assert Variable(x) in NodesIn(program);
    }
  }

  // ---------- what is left ----------

  /** Variables are read or their initialisers may act, procs are read, and nothing follows a
      jump, wherever the pass goes. */
  predicate LeanStmt(names: set<string>, s: Stmt)
    decreases s, 1
  {
    match s
    case Let(x, e) => x in names || !Quiet(e)
    case Proc(name, _, body) => name in names && LeanList(names, body)
    case If(_, thn, els) => LeanList(names, thn) && LeanList(names, els)
    case While(_, body) => LeanList(names, body)
    case For(_, _, body) => LeanList(names, body)
    case Block(body) => LeanList(names, body)
    case Class(_, _, methods) => LeanList(names, methods)
    case Match(_, cases, default) => LeanCases(names, cases) && LeanList(names, default)
    case Try(block, handlers, final) =>
      LeanList(names, block) && LeanHandlers(names, handlers) && LeanList(names, final)
    case _ => true
  }

  predicate LeanList(names: set<string>, ss: seq<Stmt>)
    decreases ss, 0
  {
    ss == [] ||
    (&& LeanStmt(names, ss[0])
     && (ss[0].Return? || ss[0].Break? || ss[0].Continue? ==> |ss| == 1)
     && LeanList(names, ss[1..]))
  }

  predicate LeanCases(names: set<string>, cs: seq<Case>)
    decreases cs, 0
  {
    cs == [] || (LeanList(names, cs[0].body) && LeanCases(names, cs[1..]))
  }

  predicate LeanHandlers(names: set<string>, hs: seq<Handler>)
    decreases hs, 0
  {
    hs == [] || (LeanList(names, hs[0].body) && LeanHandlers(names, hs[1..]))
  }

  lemma {:induction false} EffectNotQuiet(e: Expr)
    requires HasSideEffects(e)
    ensures !Quiet(e)
    decreases e
  {
    if e.Binary? {
      if HasSideEffects(e.left) { EffectNotQuiet(e.left); } else { EffectNotQuiet(e.right); }
    } else if e.Index? {
      var es := [e.base, e.index];
      assert Operands(e) == es;
      if HasSideEffects(e.base) {
        EffectNotQuiet(e.base);
        OneNotQuiet(es, 0);
      } else {
        EffectNotQuiet(e.index);
        OneNotQuiet(es, 1);
      }
    } else if e.Array? {
      var i :| 0 <= i < |e.elems| && HasSideEffects(e.elems[i]);
      EffectNotQuiet(e.elems[i]);
      OneNotQuiet(e.elems, i);
    }
  }

  lemma {:induction false} OneNotQuiet(es: seq<Expr>, i: nat)
    requires i < |es| && !Quiet(es[i])
    ensures !AllQuiet(es)
  {
    hide Quiet;
    if i > 0 { OneNotQuiet(es[1..], i - 1); }
  }

  lemma {:induction false} KeptLean(names: set<string>, used: set<string>, s: Stmt)
    requires used <= names && Keep(used, s)
    ensures LeanStmt(names, DceStmt(used, s))
    decreases s, 1
  {
    hide HasSideEffects, Quiet, DceList, LeanList;
    if s.Let? {
      if s.name !in used { EffectNotQuiet(s.init); }
    } else if s.If? {
      ListLean(names, used, s.thn);
      ListLean(names, used, s.els);
    } else if s.Proc? || s.While? || s.For? || s.Block? {
      ListLean(names, used, s.body);
    } else if s.Class? {
      ListLean(names, used, s.methods);
    } else if s.Match? {
      CasesLean(names, used, s.cases);
      ListLean(names, used, s.default);
    } else if s.Try? {
      ListLean(names, used, s.block);
      HandlersLean(names, used, s.handlers);
      ListLean(names, used, s.final);
    }
  }

  lemma {:induction false} ListLean(names: set<string>, used: set<string>, ss: seq<Stmt>)
    requires used <= names
    ensures LeanList(names, DceList(used, ss))
    decreases ss, 0
  {
    hide LeanStmt, HasSideEffects;
    if ss != [] {
      var rest := if IsTerminator(ss[0]) then [] else DceList(used, ss[1..]);
      if !IsTerminator(ss[0]) { ListLean(names, used, ss[1..]); }
      if Keep(used, ss[0]) {
        KeptLean(names, used, ss[0]);
        hide Keep;
        assert ([DceStmt(used, ss[0])] + rest)[1..] == rest;
      } else {
        assert [] + rest == rest;
      }
    }
  }

  lemma {:induction false} CasesLean(names: set<string>, used: set<string>, cs: seq<Case>)
    requires used <= names
    ensures LeanCases(names, DceCases(used, cs))
    decreases cs, 0
  {
    hide LeanList, DceList;
    if cs != [] {
      ListLean(names, used, cs[0].body);
      CasesLean(names, used, cs[1..]);
      assert DceCases(used, cs)[1..] == DceCases(used, cs[1..]);
    }
  }

  lemma {:induction false} HandlersLean(names: set<string>, used: set<string>, hs: seq<Handler>)
    requires used <= names
    ensures LeanHandlers(names, DceHandlers(used, hs))
    decreases hs, 0
  {
    hide LeanList, DceList;
    if hs != [] {
      ListLean(names, used, hs[0].body);
      HandlersLean(names, used, hs[1..]);
      assert DceHandlers(used, hs)[1..] == DceHandlers(used, hs[1..]);
    }
  }

  /** What is left after the pass is read somewhere in the program, or may act, and can be
      reached past its neighbours. */
  lemma NothingDead(program: seq<Stmt>)
    ensures LeanList(Reads(program), PassDce(program))
  {
    hide UsedList, DceList, LeanList;
    UsedIsRead(program);
    ListLean(Reads(program), UsedList(program), program);
  }
}
