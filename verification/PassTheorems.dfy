// What the optimisation passes keep, and programs that break dead code elimination
// and inlining.
module PassTheorems {
  import opened Common
  import opened Ast
  import opened Values
  import opened Semantics
  import opened ConstFold
  import opened Effects
  import opened Dce
  import opened PassRelation
  import opened PassCorrect
  import PassStatements
  import opened Liveness
  import Inline
  import Inlinable

  // ---------- runs without procs in sight ----------

  predicate NoProcs(v: Value)
    decreases v
  {
    match v
    case FunV(_, _, _) => false
    case ArrV(es) => forall i | 0 <= i < |es| :: NoProcs(es[i])
    case _ => true
  }

  /** A state before the program has run: builtins and plain data only. */
  predicate Fresh(st: State) {
    && |st.scopes| == 1 && st.trace == []
    && forall x | x in st.scopes[0] :: NoProcs(st.scopes[0][x].value)
  }

  predicate PlainTrace(t: seq<Event>) {
    forall i, j | 0 <= i < |t| && 0 <= j < |t[i].args| :: NoProcs(t[i].args[j])
  }

  lemma {:induction false} PlainValue(p: Pass, v: Value)
    requires NoProcs(v)
    ensures NewValue(p, v) == v && SafeV(p, v)
    decreases v
  {
    if v.ArrV? {
      forall i | 0 <= i < |v.elems|
        ensures NewValue(p, v.elems[i]) == v.elems[i] && SafeV(p, v.elems[i])
      {
        PlainValue(p, v.elems[i]);
      }
      NewValuesAre(p, v.elems, v.elems);
    }
  }

  /** No builtin has a candidate's name. */
  predicate Unclaimed(p: Pass, st: State) {
    p.Inlining? ==> forall s, x | s in st.scopes && x in s :: Inline.FindCandidate(p.cs, x).None?
  }

  lemma FreshSame(p: Pass, st: State)
    requires Fresh(st) && Unclaimed(p, st)
    ensures SameState(p, st, st)
  {
    hide NewValue, SafeV, NoProcs;
    var s := st.scopes[0];
    forall x | x in s
      ensures NewValue(p, s[x].value) == s[x].value && SafeV(p, s[x].value) && KeepsName(p, x, s[x].value)
    {
      PlainValue(p, s[x].value);
    }
    hide KeepsName;
    assert SameScope(p, s, s);
  }

  lemma PlainTraceSame(p: Pass, t: seq<Event>)
    requires PlainTrace(t)
    ensures NewTrace(p, t) == t
  {
    forall i | 0 <= i < |t|
      ensures NewValues(p, t[i].args) == t[i].args
    {
      forall j | 0 <= j < |t[i].args|
        ensures NewValue(p, t[i].args[j]) == t[i].args[j]
      {
        PlainValue(p, t[i].args[j]);
      }
      NewValuesAre(p, t[i].args, t[i].args);
    }
  }

  /** How a whole run ended, and what the world saw. */
  function Ending(o: Outcome): string {
    match o
    case Normal(_) => "normal"
    case Broke(_) => "break"
    case Continued(_) => "continue"
    case Returned(_, _) => "return"
    case Raised(_, _) => "exception"
    case Failed => "error"
    case TimedOut => "no fuel"
  }

  function Seen(o: Outcome): seq<Event> { if Finished(o) then o.st.trace else [] }

  // ---------- the theorems ----------

  /** Constant folding: every run ends the same way at every fuel, and the world sees the
      same events of a run that meets no error. */
  lemma FoldingPreserves(w: World, fuel: nat, program: seq<Stmt>, st: State)
    requires Natural(w) && Fresh(st)
    ensures var o, o' := ExecAll(w, fuel, program, st), ExecAll(w, fuel, FoldStmts(w.host, program), st);
            && SameOutcome(Fold(w.host), o, o')
            && Ending(o) == Ending(o')
            && (PlainTrace(Seen(o)) ==> Seen(o) == Seen(o'))
  {
    hide Natural;
    NaturalBlind(Fold(w.host), w);
    Preserved(Fold(w.host), w, fuel, program, st);
  }

  /** Dead code elimination: if nothing in the program is skipped, every variable that is
      assigned is also read, and what may be dropped has no hidden effects and is no method,
      then a run that meets no error ends the same way, and the world sees the same events. */
  lemma EliminationPreserves(w: World, fuel: nat, program: seq<Stmt>, st: State)
    requires Eliminable(program) && Natural(w) && Fresh(st) && Finished(ExecAll(w, fuel, program, st))
    ensures var o, o' := ExecAll(w, fuel, program, st), ExecAll(w, fuel, PassDce(program), st);
            Ending(o) == Ending(o') && (PlainTrace(Seen(o)) ==> Seen(o) == Seen(o'))
  {
    hide ExecAll, Natural, Eliminable, Fresh, PlainTrace, PassDce;
    EliminableSafe(program);
    SafeElimination(w, fuel, program, st);
  }

  /** More generally, if every name that occurs anywhere is found by the pass. */
  lemma SafeElimination(w: World, fuel: nat, program: seq<Stmt>, st: State)
    requires SafeList(UsedList(program), program)
    requires Natural(w) && Fresh(st) && Finished(ExecAll(w, fuel, program, st))
    ensures var o, o' := ExecAll(w, fuel, program, st), ExecAll(w, fuel, PassDce(program), st);
            Ending(o) == Ending(o') && (PlainTrace(Seen(o)) ==> Seen(o) == Seen(o'))
  {
    hide Natural;
    NaturalBlind(Drop(UsedList(program)), w);
    Preserved(Drop(UsedList(program)), w, fuel, program, st);
  }

  /** Inlining: if procs that only return an expression compute it from their parameters,
      nothing else has their names, and they are called with quiet arguments, then a run
      that meets no error ends the same way, and the world sees the same events. */
  lemma InliningPreservesRuns(w: World, fuel: nat, program: seq<Stmt>, st: State)
    requires Inlinable.IsInlinable(program) && Natural(w) && Fresh(st)
    requires forall x | x in st.scopes[0] :: x !in Inlinable.SimpleNames(program)
    requires Finished(ExecAll(w, fuel, program, st))
    ensures var o, o' := ExecAll(w, fuel, program, st), ExecAll(w, fuel, Inline.PassInline(program), st);
            Ending(o) == Ending(o') && (PlainTrace(Seen(o)) ==> Seen(o) == Seen(o'))
  {
    hide ExecAll, Natural, Inlinable.IsInlinable, PlainTrace, Inlinable.SimpleNames, Inline.Candidates;
    Inlinable.InlinableSafe(program);
    var p := Inlining(Inline.Candidates(program));
    forall s, x | s in st.scopes && x in s
      ensures Inline.FindCandidate(p.cs, x).None?
    {
      Inlinable.NameFree(program, x);
    }
    SafeInlining(w, fuel, program, st);
  }

  /** More generally, under the condition in terms of the candidates. */
  lemma SafeInlining(w: World, fuel: nat, program: seq<Stmt>, st: State)
    requires Inline.SafeToInline(program) && Natural(w) && Fresh(st)
    requires Unclaimed(Inlining(Inline.Candidates(program)), st) && Finished(ExecAll(w, fuel, program, st))
    ensures var o, o' := ExecAll(w, fuel, program, st), ExecAll(w, fuel, Inline.PassInline(program), st);
            Ending(o) == Ending(o') && (PlainTrace(Seen(o)) ==> Seen(o) == Seen(o'))
  {
    hide ExecAll, Unclaimed, Natural;
    NaturalBlind(Inlining(Inline.Candidates(program)), w);
    Preserved(Inlining(Inline.Candidates(program)), w, fuel, program, st);
  }

  lemma Preserved(p: Pass, w: World, fuel: nat, program: seq<Stmt>, st: State)
    requires Ready(p, w) && SafeL(p, program) && Fresh(st) && Unclaimed(p, st)
    requires p.Fold? || Finished(ExecAll(w, fuel, program, st))
    ensures var o, o' := ExecAll(w, fuel, program, st), ExecAll(w, fuel, NewList(p, program), st);
            && SameOutcome(p, o, o')
            && Ending(o) == Ending(o')
            && (PlainTrace(Seen(o)) ==> Seen(o) == Seen(o'))
  {
    hide ExecAll, Ready, NewList, SafeL, PlainTrace, NewTrace, Fresh, Unclaimed;
    FreshSame(p, st);
    ExecListSame(p, w, fuel, program, st, st);
    var o := ExecAll(w, fuel, program, st);
    if Finished(o) && PlainTrace(Seen(o)) {
      PlainTraceSame(p, Seen(o));
    }
  }

  /** Statements that no pass enters. */
  predicate IsLeft(s: Stmt) {
    || s.AsyncProc? || s.Impl? || s.Defer? || s.Annotated? || s.ComptimeBlock? || s.Spawn?
    || s.Struct? || s.OtherStmt? || s.Break? || s.Continue?
  }

  /** The kinds of statement that a run here never completes are kept as they are; a `yield`
      has its expression rewritten like any other. */
  lemma UnrunKept(p: Pass, s: Stmt, e: Expr)
    requires IsLeft(s)
    ensures NewStmt(p, s) == s && NewStmt(p, Yield(e)) == Yield(NewExpr(p, e))
    ensures NewList(p, [s]) == [s] && NewList(p, [Yield(e)]) == [Yield(NewExpr(p, e))]
  {
    var y := Yield(e);
    hide FoldExpr, Inline.InlineExpr;
    assert NewStmt(p, s) == s && NewStmt(p, y) == Yield(NewExpr(p, e));
    hide FoldStmt, DceStmt, Inline.InlineStmt;
    assert [s][1..] == [] && [y][1..] == [] && NewList(p, []) == [];
    assert NewList(p, [s]) == [s] + [] && NewList(p, [y]) == [Yield(NewExpr(p, e))] + [];
  }

  // ---------- where dead code elimination goes wrong ----------

  lemma NotEliminable(program: seq<Stmt>)
    requires !SafeList(UsedList(program), program)
    ensures !Eliminable(program)
  {
    hide Eliminable, SafeList, UsedList;
    if Eliminable(program) { EliminableSafe(program); }
  }

  lemma NotInlinable(program: seq<Stmt>)
    requires !Inline.SafeToInline(program)
    ensures !Inlinable.IsInlinable(program)
  {
    hide Inlinable.IsInlinable, Inline.SafeToInline;
    if Inlinable.IsInlinable(program) { Inlinable.InlinableSafe(program); }
  }

  const DECLARE: Stmt := Let("x", Int(1))
  const OVERWRITE: Stmt := ExprStmt(Set(Absent, "x", Int(2)))

  /** A variable that is assigned but never read loses its declaration, and the
      assignment then fails. */
  lemma AssignedOnlyBreaks(w: World, fuel: nat)
    ensures var program, st := [DECLARE, OVERWRITE], State([map[]], []);
            && !Eliminable(program)
            && ExecAll(w, fuel, program, st).Normal?
            && ExecAll(w, fuel, PassDce(program), st).Failed?
  {
    DeclareOverwrite(w, fuel);
    OverwriteFails(w, fuel);
    OnlyOverwriteLeft();
    hide ExecAll, PassDce, DceList, UsedList, Eval;
    assert [DECLARE, OVERWRITE][1..] == [OVERWRITE];
    assert "x" in NamesExpr(OVERWRITE.e);
    assert !SafeStmt({}, OVERWRITE);
    assert !SafeList({}, [OVERWRITE]);
    assert !SafeList({}, [DECLARE, OVERWRITE]);
    NotEliminable([DECLARE, OVERWRITE]);
  }

  lemma OnlyOverwriteLeft()
    ensures UsedList([DECLARE, OVERWRITE]) == {} && PassDce([DECLARE, OVERWRITE]) == [OVERWRITE]
  {
    assert [DECLARE, OVERWRITE][1..] == [OVERWRITE] && [OVERWRITE][1..] == [];
    assert UsedExpr(Int(1)) == {} && UsedExpr(Int(2)) == {} && UsedExpr(Absent) == {};
    assert UsedExpr(OVERWRITE.e) == {};
    assert UsedList([OVERWRITE]) == {};
    assert DceList({}, [OVERWRITE]) == [OVERWRITE];
  }

  lemma DeclareOverwrite(w: World, fuel: nat)
    ensures ExecAll(w, fuel, [DECLARE, OVERWRITE], State([map[]], [])).Normal?
  {
    var st := State([map[]], []);
    var st1 := State([map["x" := Binding(IntV(1), false)]], []);
    assert EvalAll(w, fuel, [], st) == Got([], st);
    assert Eval(w, fuel, Int(1), st) == Got(IntV(1), st);
    assert Exec(w, fuel, DECLARE, st) == Normal(st1);
    assert Eval(w, fuel, Int(2), st1) == Got(IntV(2), st1);
    assert Eval(w, fuel, OVERWRITE.e, st1).Got?;
    assert Exec(w, fuel, OVERWRITE, st1).Normal?;
    assert [DECLARE, OVERWRITE][1..] == [OVERWRITE] && [OVERWRITE][1..] == [];
    hide Exec, Eval;
    assert ExecAll(w, fuel, [OVERWRITE], st1).Normal?;
  }

  lemma OverwriteFails(w: World, fuel: nat)
    ensures ExecAll(w, fuel, [OVERWRITE], State([map[]], [])).Failed?
  {
    var st := State([map[]], []);
    assert Assign(st.scopes, "x", IntV(2)).None? by {
      assert st.scopes[..0] == [];
    }
    assert Eval(w, fuel, Int(2), st) == Got(IntV(2), st);
    assert Exec(w, fuel, OVERWRITE, st).Failed?;
  }

  const HIDDEN: Stmt := Let("x", Tuple([Call(Variable("beep"), [])]))

  /** A call hidden in a tuple is dropped with the tuple: the builtin below is never
      called. */
  lemma HiddenCallDropped(w: World, fuel: nat)
    requires w.act([], "call", [NativeV("beep")]).Some?
    requires w.look([Event("call", [NativeV("beep")])], "()", [w.act([], "call", [NativeV("beep")]).value]).Some?
    ensures var program, st := [HIDDEN], State([map["beep" := Binding(NativeV("beep"), true)]], []);
            && !Eliminable(program)
            && PassDce(program) == []
            && Seen(ExecAll(w, fuel, program, st)) == [Event("call", [NativeV("beep")])]
            && Seen(ExecAll(w, fuel, [], st)) == []
  {
    var st := State([map["beep" := Binding(NativeV("beep"), true)]], []);
    var call := Call(Variable("beep"), []);
    assert [HIDDEN][1..] == [];
    assert [call][1..] == [];
    assert UsedExprs([]) == {};
    assert UsedExpr(Variable("beep")) == {"beep"};
    assert UsedExpr(call) == {"beep"};
    assert UsedExprs([call]) == {"beep"};
    assert UsedExpr(HIDDEN.init) == {"beep"};
    assert UsedList([HIDDEN]) == {"beep"};
    assert !Keep({"beep"}, HIDDEN);
    assert DceList({"beep"}, []) == [];
    assert DceList({"beep"}, [HIDDEN]) == [];
    assert !Quiet(HIDDEN.init) by {
      assert !Quiet(HIDDEN.init.elems[0]);
    }
    assert !SafeStmt({"beep"}, HIDDEN);
    assert !SafeList({"beep"}, [HIDDEN]);
    NotEliminable([HIDDEN]);
    HiddenRuns(w, fuel);
  }

  lemma HiddenRuns(w: World, fuel: nat)
    requires w.act([], "call", [NativeV("beep")]).Some?
    requires w.look([Event("call", [NativeV("beep")])], "()", [w.act([], "call", [NativeV("beep")]).value]).Some?
    ensures Seen(ExecAll(w, fuel, [HIDDEN], State([map["beep" := Binding(NativeV("beep"), true)]], [])))
            == [Event("call", [NativeV("beep")])]
  {
    var st := State([map["beep" := Binding(NativeV("beep"), true)]], []);
    var e := Event("call", [NativeV("beep")]);
    var st1 := st.(trace := [e]);
    var call := Call(Variable("beep"), []);
    var v := w.act([], "call", [NativeV("beep")]).value;
    assert Eval(w, fuel, Variable("beep"), st) == Got(NativeV("beep"), st);
    assert EvalAll(w, fuel, [], st) == Got([], st);
    assert [NativeV("beep")] + [] == [NativeV("beep")];
    assert [] + [e] == [e];
    assert Eval(w, fuel, call, st) == Got(v, st1);
    assert [call][1..] == [];
    assert EvalAll(w, fuel, [], st1) == Got([], st1);
    assert [v] + [] == [v];
    assert EvalAll(w, fuel, [call], st) == Got([v], st1);
    assert Eval(w, fuel, HIDDEN.init, st).Got? && Eval(w, fuel, HIDDEN.init, st).st == st1;
    assert Exec(w, fuel, HIDDEN, st).Normal? && Exec(w, fuel, HIDDEN, st).st.trace == [e];
    assert [HIDDEN][1..] == [];
  }

  const METHOD: Stmt := Proc("area", Bare(["self"]), [])
  const SHAPE: Stmt := Class("Shape", None, [METHOD])

  const SHAPED: seq<Stmt> := [SHAPE, ExprStmt(Get(Variable("Shape"), "area"))]

  /** The state with the class as the outside makes it of its methods. */
  function ShapeOf(w: World, methods: seq<Value>): State
    requires w.look([], "class Shape", methods).Some?
  {
    State([map["Shape" := Binding(w.look([], "class Shape", methods).value, true)]], [])
  }

  /** Methods are dropped unless their names are read as variables: below, the outside makes
      a class with one method, and after the pass a class with none. */
  lemma MethodDropped(w: World, fuel: nat)
    requires w.look([], "class Shape", [FunV("area", METHOD.sig, [])]).Some? && w.look([], "class Shape", []).Some?
    ensures !Eliminable(SHAPED) && PassDce(SHAPED) == [Class("Shape", None, []), SHAPED[1]]
    ensures Exec(w, fuel, SHAPED[0], State([map[]], [])) == Normal(ShapeOf(w, [FunV("area", METHOD.sig, [])]))
    ensures Exec(w, fuel, PassDce(SHAPED)[0], State([map[]], [])) == Normal(ShapeOf(w, []))
  {
    MethodEliminated();
    hide PassDce, Eliminable;
    assert [METHOD][1..] == [] && MethodsOf([METHOD]) == [FunV("area", METHOD.sig, [])];
    ClassAlone(w, fuel, [METHOD]);
    ClassAlone(w, fuel, []);
  }

  lemma ClassAlone(w: World, fuel: nat, ms: seq<Stmt>)
    requires w.look([], "class Shape", MethodsOf(ms)).Some? && forall m | m in ms :: m.Proc?
    ensures Exec(w, fuel, Class("Shape", None, ms), State([map[]], [])) == Normal(ShapeOf(w, MethodsOf(ms)))
  {
    var st := State([map[]], []);
    PassStatements.ClassRuns(w, fuel, "Shape", None, ms, st);
    hide MethodsOf, Exec, Define;
    assert PassStatements.ParentOf(None, st) == None;
    assert [] + MethodsOf(ms) == MethodsOf(ms);
    assert PassStatements.ClassArgs(None, ms) == MethodsOf(ms);
    assert !exists m :: m in ms && m.AsyncProc?;
    FirstBinding("Shape", w.look([], "class Shape", MethodsOf(ms)).value);
    var c := w.look(st.trace, "class " + "Shape", MethodsOf(ms));
    assert "class " + "Shape" == "class Shape";
    assert c.Some?;
    assert Exec(w, fuel, Class("Shape", None, ms), st)
        == Normal(st.(scopes := Define(st.scopes, "Shape", c.value, true)));
  }

  lemma FirstBinding(x: string, v: Value)
    ensures Define([map[]], x, v, true) == [map[x := Binding(v, true)]]
  {
  }

  lemma MethodEliminated()
    ensures !Eliminable(SHAPED) && PassDce(SHAPED) == [Class("Shape", None, []), SHAPED[1]]
  {
    var use, used := SHAPED[1], {"Shape"};
    assert SHAPED[1..] == [use] && [use][1..] == [] && [METHOD][1..] == [];
    assert UsedStmt(METHOD) == {} && UsedList([METHOD]) == {};
    assert UsedStmt(use) == used && UsedList([use]) == used && UsedList(SHAPED) == used;
    assert DceList(used, [METHOD]) == [] + DceList(used, []) == [];
    assert DceList(used, [use]) == [use];
    assert DceStmt(used, SHAPE) == Class("Shape", None, []);
    assert Keep(used, SHAPE) && !IsTerminator(SHAPE);
    assert DceList(used, SHAPED) == [DceStmt(used, SHAPE)] + DceList(used, [use]);
    assert !SafeMethods(used, [METHOD]) && !SafeStmt(used, SHAPE) && !SafeList(used, SHAPED);
    NotEliminable(SHAPED);
  }

  const READS: seq<Expr> := [Comptime(Variable("x")), Interp("{x}", [Variable("x")])]

  /** A variable that is read only in a compile-time expression or between the braces of
      a string loses its declaration, and the read then fails. */
  lemma HiddenReadFails(w: World, fuel: nat, k: nat)
    requires k < |READS| && w.look([], "text {x}", [IntV(1)]).Some?
    ensures var program, st := [DECLARE, Print(READS[k])], State([map[]], []);
            && !Eliminable(program)
            && PassDce(program) == [Print(READS[k])]
            && ExecAll(w, fuel, program, st).Normal?
            && ExecAll(w, fuel, PassDce(program), st).Failed?
  {
    var e, st := READS[k], State([map[]], []);
    var st1 := State([map["x" := Binding(IntV(1), false)]], []);
    HiddenReadDropped(e);
    ReadOfX(w, fuel, e, st);
    ReadOfX(w, fuel, e, st1);
    hide UsedList, SafeList, PassDce;
    assert EvalAll(w, fuel, [], st) == Got([], st);
    assert Eval(w, fuel, Int(1), st) == Got(IntV(1), st);
    hide Eval, EvalAll;
    assert st.scopes[0]["x" := Binding(IntV(1), false)] == st1.scopes[0];
    assert Exec(w, fuel, DECLARE, st) == Normal(st1);
    assert Exec(w, fuel, Print(e), st1).Normal?;
    assert Exec(w, fuel, Print(e), st).Failed?;
    hide Exec;
    assert [DECLARE, Print(e)][1..] == [Print(e)] && [Print(e)][1..] == [];
    assert forall t :: ExecAll(w, fuel, [], t) == Normal(t);
    assert ExecAll(w, fuel, [Print(e)], st1).Normal?;
  }

  lemma HiddenReadDropped(e: Expr)
    requires e in READS
    ensures var program := [DECLARE, Print(e)];
            !Eliminable(program) && PassDce(program) == [Print(e)]
  {
    var p, rest := [DECLARE, Print(e)], [Print(e)];
    HiddenName(e);
    assert p[1..] == rest && rest[1..] == [];
    assert UsedExpr(Int(1)) == {};
    hide UsedExpr, NamesExpr;
    assert UsedList([]) == {};
    assert UsedList(rest) == {} + {};
    assert UsedList(p) == {} + {};
    assert !SafeStmt({}, Print(e));
    assert !SafeList({}, rest) && !SafeList({}, p);
    assert DceList({}, []) == [];
    assert DceList({}, rest) == rest + [];
    NotEliminable(p);
  }

  lemma HiddenName(e: Expr)
    requires e in READS
    ensures UsedExpr(e) == {} && "x" in NamesExpr(e)
  {
    assert [Variable("x")][1..] == [];
    assert NamesExprs([Variable("x")]) == {"x"} + NamesExprs([]);
  }

  lemma ReadOfX(w: World, fuel: nat, e: Expr, st: State)
    requires e in READS && st.trace == [] && w.look([], "text {x}", [IntV(1)]).Some?
    ensures st.scopes == [map[]] ==> Eval(w, fuel, e, st).Error?
    ensures st.scopes == [map["x" := Binding(IntV(1), false)]] ==>
              Eval(w, fuel, e, st).Got? && Eval(w, fuel, e, st).st == st
  {
    var x, r := Variable("x"), Lookup(st.scopes, "x");
    assert EvalAll(w, fuel, [], st) == Got([], st);
    assert Eval(w, fuel, x, st) == Pure(r, st);
    assert |st.scopes| == 1 ==> Lookup(st.scopes[..0], "x") == None;
    assert st.scopes == [map[]] ==> r == None;
    assert "text " + "{x}" == "text {x}";
    if st.scopes == [map["x" := Binding(IntV(1), false)]] {
      assert "x" in st.scopes[0] && st.scopes[0]["x"].value == IntV(1);
      assert r == Some(IntV(1));
    }
    hide Lookup;
    if r.Some? { OneRead(w, fuel, x, r.value, st); }
    assert Plain(e) && Operands(e) == [x];
    var vs := EvalAll(w, fuel, [x], st);
    assert r.None? ==> vs.Error?;
    hide EvalAll;
    assert Eval(w, fuel, e, st) == if vs.Got? then Finish(w, e, vs.value, vs.st) else Fail(vs);
  }

  lemma OneRead(w: World, fuel: nat, e: Expr, v: Value, st: State)
    requires Eval(w, fuel, e, st) == Got(v, st)
    ensures EvalAll(w, fuel, [e], st) == Got([v], st)
  {
    hide Eval;
    assert [e][1..] == [] && [v] + [] == [v];
    assert EvalAll(w, fuel, [], st) == Got([], st);
  }

  // ---------- where inlining goes wrong ----------

  const FIRST: Stmt := Proc("f", Bare(["a"]), [Return(Variable("a"))])
  const SECOND: Stmt := Proc("f", Bare(["a"]), [Return(Int(2)), Return(Int(2))])
  const SHOW: Stmt := Print(Call(Variable("f"), [Int(1)]))

  /** A later proc of the same name that is no candidate does not hide the earlier one:
      the program below prints 2, and 1 after the pass. */
  lemma StaleCandidateRuns(w: World, fuel: nat)
    requires fuel > 0
    ensures var program, st := [FIRST, SECOND, SHOW], State([map[]], []);
            && !Inlinable.IsInlinable(program)
            && Seen(ExecAll(w, fuel, program, st)) == [Event("print", [IntV(2)])]
            && Seen(ExecAll(w, fuel, Inline.PassInline(program), st)) == [Event("print", [IntV(1)])]
  {
    StaleInlined();
    StaleBefore(w, fuel);
    StaleAfter(w, fuel);
  }

  const STALE: Inline.Candidate := Inline.Candidate("f", ["a"], Variable("a"))

  lemma StaleCollected()
    ensures Inline.Candidates([FIRST, SECOND, SHOW]) == [STALE]
  {
    var p := [FIRST, SECOND, SHOW];
    assert Inline.CandidateOf(FIRST) == Some(STALE);
    assert Inline.CandidateOf(SECOND) == None;
    assert Inline.CandidateOf(SHOW) == None;
    hide Inline.CandidateOf;
    assert p[..2] == [FIRST, SECOND] && [FIRST, SECOND][..1] == [FIRST] && [FIRST][..0] == [];
    assert Inline.Candidates([FIRST]) == [STALE];
    assert Inline.Candidates([FIRST, SECOND]) == [STALE];
  }

  /** Only the printed call is replaced. */
  lemma StaleReplaced()
    ensures Inline.InlineStmt([STALE], FIRST) == FIRST
    ensures Inline.InlineStmt([STALE], SECOND) == SECOND
    ensures Inline.InlineStmt([STALE], SHOW) == Print(Int(1))
  {
    var two := SECOND.body;
    assert two[1..] == [two[0]] && two[..1] == [two[0]] && two[1..][1..] == [];
    assert FIRST.body[1..] == [] && [Int(1)][1..] == [];
    assert Inline.InlineStmt([STALE], two[0]) == two[0];
    assert Inline.InlineStmts([STALE], two[1..]) == two[1..];
    assert Inline.InlineStmts([STALE], two) == two;
    assert Inline.InlineStmt([STALE], FIRST.body[0]) == FIRST.body[0];
    assert Inline.InlineStmts([STALE], FIRST.body) == FIRST.body;
    assert Inline.InlineAll([STALE], [Int(1)]) == [Int(1)];
    Inline.InlinedCall([STALE], "f", [Int(1)]);
    assert Inline.ParamIndex(["a"], "a") == Some(0);
  }

  lemma StaleInlined()
    ensures Inline.PassInline([FIRST, SECOND, SHOW]) == [FIRST, SECOND, Print(Int(1))]
    ensures !Inlinable.IsInlinable([FIRST, SECOND, SHOW])
  {
    StaleCollected();
    StaleReplaced();
    hide Inline.InlineStmt, Inline.Candidates;
    var p, cs := [FIRST, SECOND, SHOW], [STALE];
    assert p[1..] == [SECOND, SHOW] && [SECOND, SHOW][1..] == [SHOW] && [SHOW][1..] == [];
    assert Inline.InlineStmts(cs, [SHOW]) == [Print(Int(1))];
    assert Inline.InlineStmts(cs, [SECOND, SHOW]) == [SECOND, Print(Int(1))];
    assert !Inline.SafeStmt(cs, SECOND);
    assert !Inline.SafeList(cs, [SECOND, SHOW]);
    NotInlinable(p);
  }

  /** Both procs are defined, the second one last. */
  lemma BothDefined(w: World, fuel: nat, last: Stmt)
    ensures ExecAll(w, fuel, [FIRST, SECOND, last], State([map[]], []))
            == ExecAll(w, fuel, [last], State([map["f" := Binding(FunV("f", Bare(["a"]), SECOND.body), true)]], []))
  {
    hide Eval;
    var st := State([map[]], []);
    var st1 := State([map["f" := Binding(FunV("f", Bare(["a"]), FIRST.body), true)]], []);
    var st2 := State([map["f" := Binding(FunV("f", Bare(["a"]), SECOND.body), true)]], []);
    assert Exec(w, fuel, FIRST, st) == Normal(st1);
    assert st1.scopes[0]["f" := st2.scopes[0]["f"]] == st2.scopes[0];
    assert Exec(w, fuel, SECOND, st1) == Normal(st2);
    hide Exec;
    var p := [FIRST, SECOND, last];
    assert p[1..] == [SECOND, last] && [SECOND, last][1..] == [last];
    assert ExecAll(w, fuel, [SECOND, last], st1) == ExecAll(w, fuel, [last], st2);
  }

  lemma StaleBefore(w: World, fuel: nat)
    requires fuel > 0
    ensures Seen(ExecAll(w, fuel, [FIRST, SECOND, SHOW], State([map[]], []))) == [Event("print", [IntV(2)])]
  {
    BothDefined(w, fuel, SHOW);
    var st := State([map["f" := Binding(FunV("f", Bare(["a"]), SECOND.body), true)]], []);
    SecondCalled(w, fuel, st);
    hide Eval, ExecAll;
    PrintsOne(w, fuel, SHOW.e, IntV(2), st);
  }

  lemma SecondCalled(w: World, fuel: nat, st: State)
    requires fuel > 0 && st.scopes == [map["f" := Binding(FunV("f", Bare(["a"]), SECOND.body), true)]]
    ensures Eval(w, fuel, SHOW.e, st) == Got(IntV(2), st)
  {
    hide Eval, CallProc, EvalAll, Lookup, Exec, ExecAll;
    SecondReturns(w, fuel - 1, st);
    NamedCall(w, fuel, "f", FunV("f", Bare(["a"]), SECOND.body), IntV(2), st);
  }

  lemma NamedCall(w: World, fuel: nat, x: string, f: Value, v: Value, st: State)
    requires fuel > 0 && |st.scopes| == 1 && x in st.scopes[0] && st.scopes[0][x].value == f
    requires f.FunV? && Takes(f.sig, 1) && CallProc(w, fuel - 1, f, [IntV(1)], st) == Got(v, st)
    ensures Eval(w, fuel, Call(Variable(x), [Int(1)]), st) == Got(v, st)
  {
    hide *;
    OneInt(w, fuel, 1, st);
    OneScope(st.scopes, x);
    CallOf(w, fuel, x, [Int(1)], f, [IntV(1)], st, st);
  }

  lemma OneInt(w: World, fuel: nat, i: int, st: State)
    ensures EvalAll(w, fuel, [Int(i)], st) == Got([IntV(i)], st)
  {
    assert EvalAll(w, fuel, [], st) == Got([], st);
    assert Eval(w, fuel, Int(i), st) == Got(IntV(i), st);
    OneRead(w, fuel, Int(i), IntV(i), st);
  }

  lemma OneScope(scopes: seq<Scope>, x: string)
    requires |scopes| == 1 && x in scopes[0]
    ensures Lookup(scopes, x) == Some(scopes[0][x].value)
  {
  }

  /** A call by name of a proc. */
  lemma CallOf(w: World, fuel: nat, x: string, es: seq<Expr>, f: Value, vs: seq<Value>, st: State, st1: State)
    requires fuel > 0 && Lookup(st.scopes, x) == Some(f) && f.FunV? && Takes(f.sig, |es|)
    requires EvalAll(w, fuel, es, st) == Got(vs, st1)
    ensures Eval(w, fuel, Call(Variable(x), es), st) == CallProc(w, fuel - 1, f, vs, st1)
  {
    hide CallProc, Takes;
    assert EvalAll(w, fuel, [], st) == Got([], st);
    hide EvalAll, Lookup;
    assert Eval(w, fuel, Variable(x), st) == Got(f, st);
  }

  lemma SecondReturns(w: World, fuel: nat, st: State)
    requires |st.scopes| == 1
    ensures CallProc(w, fuel, FunV("f", Bare(["a"]), SECOND.body), [IntV(1)], st) == Got(IntV(2), st)
  {
    ReturnsInt(w, fuel, FunV("f", Bare(["a"]), SECOND.body), 2, IntV(1), st);
  }

  /** A proc of one parameter that begins by returning a literal. */
  lemma ReturnsInt(w: World, fuel: nat, f: Value, i: int, v: Value, st: State)
    requires f.FunV? && f.sig == Bare(["a"]) && f.body != [] && f.body[0] == Return(Int(i)) && |st.scopes| == 1
    ensures CallProc(w, fuel, f, [v], st) == Got(IntV(i), st)
  {
    FullCall(w, fuel, f, [v], st);
    hide CallProc;
    var fr := st.(scopes := [st.scopes[0], Bind(["a"], [v])]);
    ReturnsFirst(w, fuel, f.body, i, fr);
    hide ExecAll, Bind;
    assert Back(st, fr) == st;
  }

  lemma ReturnsFirst(w: World, fuel: nat, body: seq<Stmt>, i: int, st: State)
    requires body != [] && body[0] == Return(Int(i))
    ensures ExecAll(w, fuel, body, st) == Returned(IntV(i), st)
  {
    assert EvalAll(w, fuel, [], st) == Got([], st);
    assert Eval(w, fuel, Int(i), st) == Got(IntV(i), st);
    hide Eval, EvalAll;
    assert Exec(w, fuel, body[0], st) == Returned(IntV(i), st);
    hide Exec;
  }

  lemma PrintsOne(w: World, fuel: nat, e: Expr, v: Value, st: State)
    requires Eval(w, fuel, e, st) == Got(v, st) && st.trace == []
    ensures Seen(ExecAll(w, fuel, [Print(e)], st)) == [Event("print", [v])]
  {
    hide Eval;
    var st' := st.(trace := [] + [Event("print", [v])]);
    assert Exec(w, fuel, Print(e), st) == Normal(st');
    hide Exec;
    assert [Print(e)][1..] == [];
    assert ExecAll(w, fuel, [], st') == Normal(st');
  }

  lemma StaleAfter(w: World, fuel: nat)
    ensures Seen(ExecAll(w, fuel, [FIRST, SECOND, Print(Int(1))], State([map[]], []))) == [Event("print", [IntV(1)])]
  {
    BothDefined(w, fuel, Print(Int(1)));
    var st := State([map["f" := Binding(FunV("f", Bare(["a"]), SECOND.body), true)]], []);
    assert EvalAll(w, fuel, [], st) == Got([], st);
    assert Eval(w, fuel, Int(1), st) == Got(IntV(1), st);
    hide Eval;
    PrintsOne(w, fuel, Int(1), IntV(1), st);
  }

  const CONSTANT: Stmt := Proc("k", Bare(["a"]), [Return(Int(1))])
  const BEEPED: Expr := Call(Variable("k"), [Call(Variable("beep"), [])])

  /** An argument that the result does not use is dropped with its effects: the builtin
      below is called once, and after the pass not at all. */
  lemma EffectDropped(w: World, fuel: nat)
    requires fuel > 0 && w.act([], "call", [NativeV("beep")]).Some?
    ensures var program := [CONSTANT, ExprStmt(BEEPED)];
            var st := State([map["beep" := Binding(NativeV("beep"), true)]], []);
            && !Inlinable.IsInlinable(program)
            && Seen(ExecAll(w, fuel, program, st)) == [Event("call", [NativeV("beep")])]
            && Finished(ExecAll(w, fuel, Inline.PassInline(program), st))
            && Seen(ExecAll(w, fuel, Inline.PassInline(program), st)) == []
  {
    EffectInlined();
    EffectBefore(w, fuel);
    EffectAfter(w, fuel);
  }

  lemma EffectInlined()
    ensures Inline.PassInline([CONSTANT, ExprStmt(BEEPED)]) == [CONSTANT, ExprStmt(Int(1))]
    ensures !Inlinable.IsInlinable([CONSTANT, ExprStmt(BEEPED)])
  {
    var p, cs := [CONSTANT, ExprStmt(BEEPED)], [DROPPING];
    EffectCollected();
    EffectReplaced();
    hide Inline.InlineStmt, Inline.Candidates;
    assert p[1..] == [ExprStmt(BEEPED)] && [ExprStmt(BEEPED)][1..] == [];
    assert !Inline.SafeList(cs, [ExprStmt(BEEPED)]);
    assert Inline.InlineStmts(cs, [ExprStmt(BEEPED)]) == [ExprStmt(Int(1))];
    NotInlinable(p);
  }

  const DROPPING: Inline.Candidate := Inline.Candidate("k", ["a"], Int(1))

  lemma EffectCollected()
    ensures Inline.Candidates([CONSTANT, ExprStmt(BEEPED)]) == [DROPPING]
  {
    var p := [CONSTANT, ExprStmt(BEEPED)];
    assert Inline.CandidateOf(CONSTANT) == Some(DROPPING) && Inline.CandidateOf(ExprStmt(BEEPED)) == None;
    hide Inline.CandidateOf;
    assert p[..1] == [CONSTANT] && [CONSTANT][..0] == [];
    assert Inline.Candidates([CONSTANT]) == [DROPPING];
  }

  lemma EffectReplaced()
    ensures Inline.InlineStmt([DROPPING], CONSTANT) == CONSTANT
    ensures Inline.InlineStmt([DROPPING], ExprStmt(BEEPED)) == ExprStmt(Int(1))
    ensures !Inline.SafeStmt([DROPPING], ExprStmt(BEEPED))
  {
    var cs, beep := [DROPPING], Call(Variable("beep"), []);
    assert Inline.FindCandidate(cs, "k") == Some(DROPPING);
    Inline.InlinedCall(cs, "k", [beep]);
    assert CONSTANT.body[1..] == [] && Inline.InlineStmt(cs, Return(Int(1))) == Return(Int(1));
    assert Inline.InlineStmts(cs, CONSTANT.body) == CONSTANT.body;
    assert !Inline.Pure(cs, beep) && !Inline.AllPure(cs, [beep]);
    assert Inline.Inlined(cs, Inline.InlineExpr(cs, Variable("k")), 1);
    assert !Inline.SafeExpr(cs, BEEPED);
  }

  function Beeping(): Scope { map["beep" := Binding(NativeV("beep"), true)] }

  function WithConstant(): Scope { Beeping()["k" := Binding(FunV("k", Bare(["a"]), CONSTANT.body), true)] }

  lemma ConstantDefined(w: World, fuel: nat, last: Stmt)
    ensures ExecAll(w, fuel, [CONSTANT, last], State([Beeping()], []))
            == ExecAll(w, fuel, [last], State([WithConstant()], []))
  {
    hide Eval;
    assert Exec(w, fuel, CONSTANT, State([Beeping()], [])) == Normal(State([WithConstant()], []));
    hide Exec;
    assert [CONSTANT, last][1..] == [last];
  }

  lemma EffectBefore(w: World, fuel: nat)
    requires fuel > 0 && w.act([], "call", [NativeV("beep")]).Some?
    ensures Seen(ExecAll(w, fuel, [CONSTANT, ExprStmt(BEEPED)], State([Beeping()], [])))
            == [Event("call", [NativeV("beep")])]
  {
    ConstantDefined(w, fuel, ExprStmt(BEEPED));
    var st := State([WithConstant()], []);
    var e := Event("call", [NativeV("beep")]);
    var st1 := st.(trace := [e]);
    var f := FunV("k", Bare(["a"]), CONSTANT.body);
    var v := w.act([], "call", [NativeV("beep")]).value;
    BeepRuns(w, fuel, st);
    ConstantRuns(w, fuel - 1, v, st1);
    assert Lookup(st.scopes, "k") == Some(f);
    hide Eval, EvalAll, CallProc, Lookup;
    CallOf(w, fuel, "k", [Call(Variable("beep"), [])], f, [v], st, st1);
    assert Exec(w, fuel, ExprStmt(BEEPED), st) == Normal(st1);
    hide Exec;
    assert [ExprStmt(BEEPED)][1..] == [];
  }

  lemma BeepRuns(w: World, fuel: nat, st: State)
    requires w.act([], "call", [NativeV("beep")]).Some? && st == State([WithConstant()], [])
    ensures var v := w.act([], "call", [NativeV("beep")]).value;
            EvalAll(w, fuel, [Call(Variable("beep"), [])], st)
            == Got([v], st.(trace := [Event("call", [NativeV("beep")])]))
  {
    var e := Event("call", [NativeV("beep")]);
    var st1 := st.(trace := [e]);
    var call := Call(Variable("beep"), []);
    var v := w.act([], "call", [NativeV("beep")]).value;
    assert EvalAll(w, fuel, [], st) == Got([], st) && EvalAll(w, fuel, [], st1) == Got([], st1);
    assert Lookup(st.scopes, "beep") == Some(NativeV("beep"));
    assert Eval(w, fuel, Variable("beep"), st) == Got(NativeV("beep"), st);
    assert [NativeV("beep")] + [] == [NativeV("beep")] && [] + [e] == [e];
    hide Lookup;
    assert Eval(w, fuel, call, st) == Got(v, st1);
    hide Eval;
    assert [call][1..] == [] && [v] + [] == [v];
  }

  lemma ConstantRuns(w: World, fuel: nat, v: Value, st: State)
    requires |st.scopes| == 1
    ensures CallProc(w, fuel, FunV("k", Bare(["a"]), CONSTANT.body), [v], st) == Got(IntV(1), st)
  {
    ReturnsInt(w, fuel, FunV("k", Bare(["a"]), CONSTANT.body), 1, v, st);
  }

  lemma EffectAfter(w: World, fuel: nat)
    ensures Seen(ExecAll(w, fuel, [CONSTANT, ExprStmt(Int(1))], State([Beeping()], []))) == []
    ensures Finished(ExecAll(w, fuel, [CONSTANT, ExprStmt(Int(1))], State([Beeping()], [])))
  {
    ConstantDefined(w, fuel, ExprStmt(Int(1)));
    var st := State([WithConstant()], []);
    assert EvalAll(w, fuel, [], st) == Got([], st);
    assert Eval(w, fuel, Int(1), st) == Got(IntV(1), st);
    hide Eval;
    assert Exec(w, fuel, ExprStmt(Int(1)), st) == Normal(st);
    hide Exec;
    assert [ExprStmt(Int(1))][1..] == [];
  }
}
