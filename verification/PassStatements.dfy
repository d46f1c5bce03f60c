// Side by side: patterns, classes and exceptions.
module PassStatements {
  import opened Common
  import opened Ast
  import opened Values
  import opened Semantics
  import opened ConstFold
  import opened Dce
  import opened PassRelation
  import Inline

  // ---------- patterns ----------

  /** The pass leaves the kind of the pattern and the names it binds. */
  ghost predicate SafePattern(p: Pass, pat: Expr) {
    && (p.Inlining? ==> Inline.SamePattern(pat, Inline.InlineExpr(p.cs, pat)))
    && SafeBound(p, PatternNames(pat))
  }

  /** A match in both runs, with the same bindings, or in neither. */
  ghost predicate SameMatch(p: Pass, r: Result<Option<Scope>>, r': Result<Option<Scope>>) {
    match r
    case Got(m, st) =>
      && r'.Got? && (r'.value.None? <==> m.None?) && SameState(p, st, r'.st)
      && (m.Some? ==> SameScope(p, m.value, r'.value.value))
    case Threw(v, st) => r'.Threw? && r'.exc == NewValue(p, v) && SafeV(p, v) && SameState(p, st, r'.st)
    case Error => p.Fold? ==> r'.Error?
    case OutOfFuel => p.Fold? ==> r'.OutOfFuel?
  }

  lemma FoldKeepsKind(h: Host, pat: Expr)
    ensures KindOf(FoldExpr(h, pat)) == KindOf(pat) && PatternNames(FoldExpr(h, pat)) == PatternNames(pat)
  {
    if pat.Call? { FoldKeepsNames(h, pat.args); }
  }

  lemma {:induction false} FoldKeepsNames(h: Host, es: seq<Expr>)
    ensures NamesOf(FoldExprs(h, es)) == NamesOf(es)
  {
    if es != [] {
      FoldKeepsNames(h, es[1..]);
      assert FoldExprs(h, es)[1..] == FoldExprs(h, es[1..]);
    }
  }

  lemma PatternNew(p: Pass, pat: Expr)
    requires SafePattern(p, pat)
    ensures KindOf(NewExpr(p, pat)) == KindOf(pat) && PatternNames(NewExpr(p, pat)) == PatternNames(pat)
    ensures PatternOperands(NewExpr(p, pat)) == MaybeNewAll(p, !pat.Range?, PatternOperands(pat))
  {
    if p.Fold? {
      PatternFolded(p, pat);
    } else if p.Inlining? {
      PatternInlined(p, pat);
    }
  }

  lemma PatternFolded(p: Pass, pat: Expr)
    requires p.Fold?
    ensures KindOf(NewExpr(p, pat)) == KindOf(pat) && PatternNames(NewExpr(p, pat)) == PatternNames(pat)
    ensures PatternOperands(NewExpr(p, pat)) == MaybeNewAll(p, !pat.Range?, PatternOperands(pat))
  {
    FoldKeepsKind(p.h, pat);
    OneFolded(p.h, pat);
    if pat.Call? && pat.callee.Get? { OneFolded(p.h, pat.callee.receiver); }
    if pat.Get? { OneFolded(p.h, pat.receiver); }
    hide PatternNames;
  }

  lemma PatternInlined(p: Pass, pat: Expr)
    requires p.Inlining? && SafePattern(p, pat)
    ensures KindOf(NewExpr(p, pat)) == KindOf(pat) && PatternNames(NewExpr(p, pat)) == PatternNames(pat)
    ensures PatternOperands(NewExpr(p, pat)) == MaybeNewAll(p, !pat.Range?, PatternOperands(pat))
  {
    OneInlined(p.cs, pat);
    if pat.Call? && pat.callee.Get? { OneInlined(p.cs, pat.callee.receiver); }
    if pat.Get? { OneInlined(p.cs, pat.receiver); }
  }

  lemma OneFolded(h: Host, e: Expr)
    ensures FoldExprs(h, [e]) == [FoldExpr(h, e)]
  {
    assert [e][1..] == [];
  }

  lemma OneInlined(cs: seq<Inline.Candidate>, e: Expr)
    ensures Inline.InlineAll(cs, [e]) == [Inline.InlineExpr(cs, e)]
  {
    assert [e][1..] == [];
  }

  lemma PatternSafe(p: Pass, pat: Expr)
    requires SafeE(p, pat)
    ensures SafeEs(p, PatternOperands(pat))
  {
    OneSafe(p, pat);
    if pat.Call? && pat.callee.Get? {
      ReceiverSafe(p, pat.callee);
    } else if pat.Get? {
      ReceiverSafe(p, pat);
    } else if pat.Range? {
      assert Operands(pat) == [pat.low, pat.high];
    }
  }

  lemma OneSafe(p: Pass, e: Expr)
    requires SafeE(p, e)
    ensures SafeEs(p, [e])
  {
    assert [e][1..] == [];
    if p.Drop? { assert NamesExprs([e]) == NamesExpr(e) + NamesExprs([]); }
  }

  lemma ReceiverSafe(p: Pass, g: Expr)
    requires g.Get? && SafeE(p, g)
    ensures SafeEs(p, [g.receiver])
  {
    assert Operands(g) == [g.receiver];
  }

  lemma CompareSame(p: Pass, w: World, k: PatternKind, n: nat, v: Value, vs: seq<Value>, st: State, st': State)
    requires Ready(p, w) && SameState(p, st, st') && SafeV(p, v) && SafeVs(p, vs)
    ensures var r, r' := Compare(w, k, n, v, vs, st), Compare(w, k, n, NewValue(p, v), NewValues(p, vs), st');
            && (r.Got? <==> r'.Got?) && !r.Threw? && !r.OutOfFuel? && (r.Error? <==> r'.Error?)
            && (r.Got? ==>
                  && SameState(p, r.st, r'.st) && (r.value.None? <==> r'.value.None?)
                  && (r.value.Some? ==> SafeVs(p, r.value.value) && r'.value.value == NewValues(p, r.value.value)))
  {
    hide Ready, SameState, TestName, NeverMatches, NewValue, SafeV, NewValues, SafeVs;
    var what := "match " + TestName(k);
    ConsSafe(p, v, vs);
    LookedUp(p, w, what, [v] + vs, st, st');
    var r := w.look(st.trace, what, [v] + vs);
    if r.Some? { ElemsSame(p, r.value); }
    OneValue(p, v);
    NoValues(p);
  }

  lemma NoValues(p: Pass)
    ensures NewValues(p, []) == [] && SafeVs(p, [])
  {
  }

  lemma ElemsSame(p: Pass, v: Value)
    ensures NewValue(p, v).ArrV? <==> v.ArrV?
    ensures v.ArrV? ==> NewValue(p, v).elems == NewValues(p, v.elems) && (SafeV(p, v) ==> SafeVs(p, v.elems))
  {
  }

  lemma BindMatchSame(p: Pass, names: seq<Option<string>>, r: Result<Option<seq<Value>>>,
                      r': Result<Option<seq<Value>>>)
    requires SafeBound(p, names) && (r.Got? <==> r'.Got?) && !r.Threw? && !r.OutOfFuel? && (r.Error? <==> r'.Error?)
    requires r.Got? ==>
               && SameState(p, r.st, r'.st) && (r.value.None? <==> r'.value.None?)
               && (r.value.Some? ==> SafeVs(p, r.value.value) && r'.value.value == NewValues(p, r.value.value))
    ensures SameMatch(p, BindMatch(names, r), BindMatch(names, r'))
  {
    hide SameState, NewValue, SafeV, SameScope, SafeVs, NewValues, SafeBound, BindNames;
    if r.Got? && r.value.Some? && |r.value.value| == |names| {
      BindNamesSame(p, names, r.value.value);
    }
  }

  lemma LookedUp(p: Pass, w: World, what: string, vs: seq<Value>, st: State, st': State)
    requires Ready(p, w) && SameState(p, st, st') && SafeVs(p, vs)
    ensures var r, r' := w.look(st.trace, what, vs), w.look(st'.trace, what, NewValues(p, vs));
            r' == NewOption(p, r) && SafeOption(p, r)
  {
  }

  lemma ConsSafe(p: Pass, v: Value, vs: seq<Value>)
    requires SafeV(p, v) && SafeVs(p, vs)
    ensures NewValues(p, [v] + vs) == [NewValue(p, v)] + NewValues(p, vs) && SafeVs(p, [v] + vs)
  {
    hide NewValue, SafeV;
    NewValuesAre(p, [v] + vs, [NewValue(p, v)] + NewValues(p, vs));
  }

  lemma {:induction false} BindNamesSame(p: Pass, names: seq<Option<string>>, vs: seq<Value>)
    requires |names| == |vs| && SafeVs(p, vs) && SafeBound(p, names)
    ensures SameScope(p, BindNames(names, vs), BindNames(names, NewValues(p, vs)))
  {
    hide SameScope, NewValue, SafeV, NewValues;
    if names == [] {
      NothingSame(p);
    } else {
      var n := |names| - 1;
      NewValuesPrefix(p, vs, n);
      BindNamesSame(p, names[..n], vs[..n]);
      if names[n].Some? {
        ScopeAdd(p, BindNames(names[..n], vs[..n]), BindNames(names[..n], NewValues(p, vs)[..n]),
                 names[n].value, vs[n], false);
      }
    }
  }

  lemma ThenCompare(p: Pass, w: World, fuel: nat, pat: Expr, v: Value, st: State, st': State)
    requires Ready(p, w) && SafePattern(p, pat) && SafeV(p, v)
    requires KindOf(NewExpr(p, pat)) == KindOf(pat) && PatternNames(NewExpr(p, pat)) == PatternNames(pat)
    requires SameResults(p, EvalAll(w, fuel, PatternOperands(pat), st),
                         EvalAll(w, fuel, PatternOperands(NewExpr(p, pat)), st'))
    ensures SameMatch(p, TryPattern(w, fuel, pat, v, st), TryPattern(w, fuel, NewExpr(p, pat), NewValue(p, v), st'))
  {
    var names, k := PatternNames(pat), KindOf(pat);
    var vs := EvalAll(w, fuel, PatternOperands(pat), st);
    var vs' := EvalAll(w, fuel, PatternOperands(NewExpr(p, pat)), st');
    hide Ready, SameState, EvalAll, NewExpr, NewValue, SafeV, SameScope, PatternNames, KindOf, Compare, PatternOperands,
         SafeVs, NewValues, BindMatch, SafeBound, Inline.SamePattern;
    if vs.Got? {
      CompareSame(p, w, k, |names|, v, vs.value, vs.st, vs'.st);
      BindMatchSame(p, names, Compare(w, k, |names|, v, vs.value, vs.st),
                    Compare(w, k, |names|, NewValue(p, v), vs'.value, vs'.st));
    }
  }

  lemma MatchedSame(p: Pass, m: Result<Option<Scope>>, m': Result<Option<Scope>>)
    requires SameMatch(p, m, m')
    ensures m.Got? ==> m'.Got? && SameState(p, m.st, m'.st) && (m.value.None? <==> m'.value.None?)
    ensures m.Got? && m.value.Some? ==>
              SameState(p, Push(m.st, m.value.value), Push(m'.st, m'.value.value))
  {
    hide SafeTrace, NewTrace, NewValue, SafeV, SameScope;
  }

  lemma NoMatch(p: Pass, m: Result<Option<Scope>>, m': Result<Option<Scope>>, o': Outcome)
    requires SameMatch(p, m, m') && !m.Got? && (!m'.Got? ==> o' == Stop(m'))
    ensures SameOutcome(p, Stop(m), o')
  {
    hide SafeTrace, NewTrace, NewValue, SafeV, SameScope;
  }

  lemma GuardStops(p: Pass, g: Result<Value>, g': Result<Value>, o': Outcome)
    requires SameResult(p, g, g') && !g.Got? && (!g'.Got? ==> o' == Unscoped(Stop(g')))
    ensures SameOutcome(p, Unscoped(Stop(g)), o')
  {
    hide SafeTrace, NewTrace, NewValue, SafeV, SameScope;
  }

  lemma UnscopedSame(p: Pass, o: Outcome, o': Outcome)
    requires SameOutcome(p, o, o')
    ensures SameOutcome(p, Unscoped(o), Unscoped(o'))
  {
    hide SafeTrace, NewTrace, NewValue, SafeV, SameScope;
  }

  lemma MatchParts(p: Pass, s: Stmt)
    requires s.Match? && SafeS(p, s)
    ensures SafeE(p, s.value) && SafeCs(p, s.cases) && SafeL(p, s.default)
    ensures NewStmt(p, s) == Match(NewExpr(p, s.value), NewCases(p, s.cases), NewList(p, s.default))
  {
  }

  lemma CaseParts(p: Pass, s: Stmt, k: nat)
    requires s.Match? && SafeCs(p, s.cases) && k < |s.cases|
    ensures var c := s.cases[k];
            && SafeE(p, c.pattern) && SafePattern(p, c.pattern) && SafeE(p, c.guard) && SafeL(p, c.body)
            && NewCases(p, s.cases)[k] == Case(NewExpr(p, c.pattern), c.guard, NewList(p, c.body))
  {
    match p
    case Fold(h) => FoldCasesAt(h, s.cases, k);
    case Drop(used) =>
      CaseAt(used, s.cases, k);
      DropCaseSafe(used, s.cases, k);
    case Inlining(cs) =>
      Inline.InlineCasesAt(cs, s.cases, k);
      InlineCaseSafe(cs, s.cases, k);
  }

  lemma {:induction false} DropCaseSafe(used: set<string>, xs: seq<Case>, k: nat)
    requires SafeCases(used, xs) && k < |xs|
    ensures NamesExpr(xs[k].pattern) <= used && NamesExpr(xs[k].guard) <= used && SafeList(used, xs[k].body)
  {
    if k > 0 { DropCaseSafe(used, xs[1..], k - 1); }
  }

  lemma {:induction false} InlineCaseSafe(cs: seq<Inline.Candidate>, xs: seq<Case>, k: nat)
    requires Inline.SafeCases(cs, xs) && k < |xs|
    ensures Inline.SafeExpr(cs, xs[k].pattern) && Inline.SafeExpr(cs, xs[k].guard) && Inline.SafeList(cs, xs[k].body)
    ensures Inline.SamePattern(xs[k].pattern, Inline.InlineExpr(cs, xs[k].pattern))
    ensures Inline.NoneBound(cs, PatternNames(xs[k].pattern))
  {
    if k > 0 { InlineCaseSafe(cs, xs[1..], k - 1); }
  }

  // ---------- exceptions ----------

  lemma RaiseSame(p: Pass, w: World, fuel: nat, e: Expr, e': Expr, st: State, st': State)
    requires Ready(p, w) && SameResult(p, Eval(w, fuel, e, st), Eval(w, fuel, e', st'))
    ensures SameOutcome(p, Exec(w, fuel, Raise(e), st), Exec(w, fuel, Raise(e'), st'))
  {
    hide Ready, SameState, Eval, SafeV, NewValue, NewValues, SafeVs, Look;
    var v, v' := Eval(w, fuel, e, st), Eval(w, fuel, e', st');
    if v.Got? {
      OneValue(p, v.value);
      LookSame(p, w, "exception", [v.value], v.st, v'.st);
      LookKeeps(w, "exception", [v.value], v.st);
      LookKeeps(w, "exception", [v'.value], v'.st);
    }
  }

  lemma LookKeeps(w: World, what: string, vs: seq<Value>, st: State)
    ensures Look(w, what, vs, st).Got? ==> Look(w, what, vs, st).st == st
    ensures !Look(w, what, vs, st).Threw? && !Look(w, what, vs, st).OutOfFuel?
  {
  }

  lemma OneValue(p: Pass, v: Value)
    requires SafeV(p, v)
    ensures NewValues(p, [v]) == [NewValue(p, v)] && SafeVs(p, [v])
  {
    NewValuesAre(p, [v], [NewValue(p, v)]);
  }

  lemma CaughtSame(p: Pass, w: World, v: Value, st: State, st': State)
    requires Ready(p, w) && SafeV(p, v) && SameState(p, st, st')
    ensures SameResult(p, Look(w, "caught", [v], st), Look(w, "caught", [NewValue(p, v)], st'))
  {
    hide Ready, SameState, SafeV, NewValue, NewValues, SafeVs, Look;
    OneValue(p, v);
    LookSame(p, w, "caught", [v], st, st');
  }

  lemma NoHandlers(p: Pass)
    ensures NewHandlers(p, []) == []
  {
  }

  lemma HandlerParts(p: Pass, hs: seq<Handler>)
    requires SafeHs(p, hs) && hs != []
    ensures SafeL(p, hs[0].body) && SafeNames(p, [hs[0].variable]) && SafeHs(p, hs[1..])
    ensures NewHandlers(p, hs)[0] == Handler(hs[0].variable, NewList(p, hs[0].body))
    ensures NewHandlers(p, hs)[1..] == NewHandlers(p, hs[1..])
  {
  }

  lemma HandlerScope(p: Pass, x: string, v: Value, st: State, st': State)
    requires SameState(p, st, st') && SafeV(p, v) && SafeNames(p, [x])
    ensures SameState(p, st.(scopes := st.scopes + [map[x := Binding(v, true)]]),
                      st'.(scopes := st'.scopes + [map[x := Binding(NewValue(p, v), true)]]))
  {
    hide SafeTrace, NewTrace, NewValue, SafeV;
    assert [x][0] == x;
    assert KeepsName(p, x, v);
    assert SameScope(p, map[x := Binding(v, true)], map[x := Binding(NewValue(p, v), true)]);
    hide SameScope;
  }

  // ---------- classes ----------

  /** The same methods, with the bodies that the pass made. */
  lemma MethodsNew(p: Pass, ms: seq<Stmt>)
    requires SafeMs(p, ms)
    ensures MethodsOf(NewList(p, ms)) == NewValues(p, MethodsOf(ms)) && SafeVs(p, MethodsOf(ms))
    ensures (exists m :: m in NewList(p, ms) && m.AsyncProc?) <==> exists m :: m in ms && m.AsyncProc?
  {
    MethodValuesNew(p, ms);
    AsyncMethodsNew(p, ms);
  }

  lemma {:induction false} MethodValuesNew(p: Pass, ms: seq<Stmt>)
    requires SafeMs(p, ms)
    ensures MethodsOf(NewList(p, ms)) == NewValues(p, MethodsOf(ms)) && SafeVs(p, MethodsOf(ms))
  {
    if ms == [] {
      NewValuesAre(p, [], []);
    } else {
      MethodValuesNew(p, ms[1..]);
      FirstMethod(p, ms);
      hide SafeMs, NewStmt, NewList;
      var s, s' := ms[0], NewStmt(p, ms[0]);
      MethodsCons(s, ms[1..]);
      MethodsCons(s', NewList(p, ms[1..]));
      assert ms == [s] + ms[1..];
      if s.Proc? {
        var f := FunV(s.name, s.sig, s.body);
        assert NewValue(p, f) == FunV(s.name, s.sig, NewList(p, s.body));
        ConsSafe(p, f, MethodsOf(ms[1..]));
      }
    }
  }

  lemma {:induction false} AsyncMethodsNew(p: Pass, ms: seq<Stmt>)
    requires SafeMs(p, ms)
    ensures (exists m :: m in NewList(p, ms) && m.AsyncProc?) <==> exists m :: m in ms && m.AsyncProc?
  {
    if ms != [] {
      AsyncMethodsNew(p, ms[1..]);
      FirstMethod(p, ms);
      hide SafeMs, NewStmt, NewList;
      MethodsCons(ms[0], ms[1..]);
      MethodsCons(NewStmt(p, ms[0]), NewList(p, ms[1..]));
      assert ms == [ms[0]] + ms[1..];
    }
  }

  lemma MethodsCons(s: Stmt, rest: seq<Stmt>)
    ensures MethodsOf([s] + rest) == (if s.Proc? then [FunV(s.name, s.sig, s.body)] else []) + MethodsOf(rest)
    ensures (exists m :: m in [s] + rest && m.AsyncProc?) <==> s.AsyncProc? || exists m :: m in rest && m.AsyncProc?
  {
    assert ([s] + rest)[1..] == rest;
    if exists m :: m in rest && m.AsyncProc? {
      var m :| m in rest && m.AsyncProc?;
      assert m in [s] + rest;
    }
    if s.AsyncProc? { assert s in [s] + rest; }
  }

  lemma FirstMethod(p: Pass, ms: seq<Stmt>)
    requires SafeMs(p, ms) && ms != []
    ensures SafeMs(p, ms[1..])
    ensures var s, s' := ms[0], NewStmt(p, ms[0]);
            && NewList(p, ms) == [s'] + NewList(p, ms[1..])
            && (s'.Proc? <==> s.Proc?) && (s'.AsyncProc? <==> s.AsyncProc?)
            && (s.Proc? ==>
                  && s' == Proc(s.name, s.sig, NewList(p, s.body))
                  && SafeV(p, FunV(s.name, s.sig, s.body)))
  {
    if p.Drop? { DropMethod(p.used, ms); }
  }

  lemma DropMethod(used: set<string>, ms: seq<Stmt>)
    requires SafeMethods(used, ms) && ms != []
    ensures var s := ms[0];
            s.Proc? && s.name in used && NamesExprs(s.sig.defaults) <= used && SafeList(used, s.body)
  {
    assert SafeStmt(used, ms[0]);
  }

  lemma ClassSame(p: Pass, w: World, fuel: nat, x: string, parent: Option<string>, ms: seq<Stmt>, st: State, st': State)
    requires Ready(p, w) && SafeS(p, Class(x, parent, ms)) && SameState(p, st, st')
    ensures SameOutcome(p, Exec(w, fuel, Class(x, parent, ms), st),
                        Exec(w, fuel, NewStmt(p, Class(x, parent, ms)), st'))
  {
    ClassParts(p, x, parent, ms);
    MethodsNew(p, ms);
    ClassRuns(w, fuel, x, parent, ms, st);
    ClassRuns(w, fuel, x, parent, NewList(p, ms), st');
    hide *;
    var v := ParentOf(parent, st);
    ParentSame(p, parent, st, st');
    if parent.None? || v.Some? {
      var vs := ClassArgs(v, ms);
      ClassArgsSame(p, v, ms);
      LookedUp(p, w, "class " + x, vs, st, st');
      var c := w.look(st.trace, "class " + x, vs);
      if c.Some? { ClassDefined(p, x, c.value, st, st'); }
      ClassEnds(p, x, c, st, st');
    }
    BothFail(p);
  }

  function ParentOf(parent: Option<string>, st: State): Option<Value> {
    if parent.Some? then Lookup(st.scopes, parent.value) else None
  }

  lemma ParentSame(p: Pass, parent: Option<string>, st: State, st': State)
    requires SameState(p, st, st') && (parent.Some? ==> Live(p, parent.value))
    ensures ParentOf(parent, st') == NewOption(p, ParentOf(parent, st)) && SafeOption(p, ParentOf(parent, st))
    ensures ParentOf(parent, st').Some? <==> ParentOf(parent, st).Some?
  {
    hide SameScopes, SafeTrace, NewTrace, Lookup, NewValue, SafeV;
    if parent.Some? { LookupSame(p, st.scopes, st'.scopes, parent.value); }
  }

  lemma BothFail(p: Pass)
    ensures SameOutcome(p, Failed, Failed)
  {
  }

  /** Whatever the outside made of the class. */
  lemma ClassEnds(p: Pass, x: string, c: Option<Value>, st: State, st': State)
    requires c.Some? ==> SameState(p, st.(scopes := Define(st.scopes, x, c.value, true)),
                                   st'.(scopes := Define(st'.scopes, x, NewValue(p, c.value), true)))
    ensures c.Some? <==> NewOption(p, c).Some?
    ensures c.Some? ==>
              && NewOption(p, c).value == NewValue(p, c.value)
              && SameOutcome(p, Normal(st.(scopes := Define(st.scopes, x, c.value, true))),
                             Normal(st'.(scopes := Define(st'.scopes, x, NewValue(p, c.value), true))))
  {
    hide SameState, Define, NewValue;
  }

  function ClassArgs(v: Option<Value>, ms: seq<Stmt>): seq<Value> {
    (if v.Some? then [v.value] else []) + MethodsOf(ms)
  }

  lemma ClassRuns(w: World, fuel: nat, x: string, parent: Option<string>, ms: seq<Stmt>, st: State)
    ensures var v := ParentOf(parent, st);
            var c := w.look(st.trace, "class " + x, ClassArgs(v, ms));
            Exec(w, fuel, Class(x, parent, ms), st)
            == if (parent.Some? && v.None?) || (exists m :: m in ms && m.AsyncProc?) || c.None? then Failed
               else Normal(st.(scopes := Define(st.scopes, x, c.value, true)))
  {
    hide MethodsOf, Lookup, Define;
  }

  lemma ClassArgsSame(p: Pass, v: Option<Value>, ms: seq<Stmt>)
    requires SafeMs(p, ms) && SafeOption(p, v)
    ensures SafeVs(p, ClassArgs(v, ms)) && ClassArgs(NewOption(p, v), NewList(p, ms)) == NewValues(p, ClassArgs(v, ms))
  {
    MethodsNew(p, ms);
    hide MethodsOf, NewList, SafeMs, NewValue, SafeV;
    if v.Some? {
      ConsSafe(p, v.value, MethodsOf(ms));
    } else {
      assert [] + MethodsOf(ms) == MethodsOf(ms) && [] + MethodsOf(NewList(p, ms)) == MethodsOf(NewList(p, ms));
    }
  }

  lemma ClassDefined(p: Pass, x: string, c: Value, st: State, st': State)
    requires SameState(p, st, st') && SafeV(p, c) && SafeNames(p, [x])
    ensures SameState(p, st.(scopes := Define(st.scopes, x, c, true)),
                      st'.(scopes := Define(st'.scopes, x, NewValue(p, c), true)))
  {
    hide SameScopes, SafeTrace, NewTrace, Define, SafeV, NewValue;
    assert [x][0] == x;
    DefineSame(p, st.scopes, st'.scopes, x, c, true);
  }

  lemma ClassParts(p: Pass, x: string, parent: Option<string>, ms: seq<Stmt>)
    requires SafeS(p, Class(x, parent, ms))
    ensures SafeMs(p, ms) && SafeNames(p, [x]) && (parent.Some? ==> Live(p, parent.value))
    ensures NewStmt(p, Class(x, parent, ms)) == Class(x, parent, NewList(p, ms))
  {
  }
}
