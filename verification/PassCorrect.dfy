// Constant folding, dead code elimination and inlining keep what a program does.
module PassCorrect {
  import opened Common
  import opened Ast
  import opened Values
  import opened Semantics
  import opened ConstFold
  import opened Effects
  import opened Dce
  import opened PassRelation
  import opened PassStatements
  import Inline

  // ---------- expressions ----------

  /** A folded operator evaluates like the operator. */
  lemma FoldBinarySound(w: World, fuel: nat, op: Op, l: Expr, r: Expr, st: State)
    ensures Eval(w, fuel, FoldBinary(w.host, op, l, r), st) == Eval(w, fuel, Binary(op, l, r), st)
  {
    assert EvalAll(w, fuel, [], st) == Got([], st);
  }

  /** Two expressions in a row. */
  ghost predicate SameTwo(p: Pass, w: World, fuel: nat, a: Expr, a': Expr, b: Expr, b': Expr, st: State, st': State) {
    && SameResult(p, Eval(w, fuel, a, st), Eval(w, fuel, a', st'))
    && (Eval(w, fuel, a, st).Got? ==>
          SameResult(p, Eval(w, fuel, b, Eval(w, fuel, a, st).st), Eval(w, fuel, b', Eval(w, fuel, a', st').st)))
  }

  lemma BinarySame(p: Pass, w: World, fuel: nat, op: Op, l: Expr, l': Expr, r: Expr, r': Expr, st: State, st': State)
    requires Ready(p, w) && SameTwo(p, w, fuel, l, l', r, r', st, st')
    ensures SameResult(p, Eval(w, fuel, Binary(op, l, r), st), Eval(w, fuel, Binary(op, l', r'), st'))
  {
    hide Ready, SameState, Operated, Truthy, NewValue, SafeV, Finish, EvalAll;
    var a, a' := Eval(w, fuel, l, st), Eval(w, fuel, l', st');
    if a.Got? {
      TruthySame(p, w.host, a.value);
      var b, b' := Eval(w, fuel, r, a.st), Eval(w, fuel, r', a'.st);
      if b.Got? {
        TruthySame(p, w.host, b.value);
        OperatedSame(p, w, op, a.value, b.value);
      }
      BoolSame(p);
    }
  }

  lemma BoolSame(p: Pass)
    ensures forall b :: NewValue(p, BoolV(b)) == BoolV(b) && SafeV(p, BoolV(b))
    ensures NewValue(p, NilV) == NilV && SafeV(p, NilV)
  {
  }

  lemma ListOf(p: Pass, a: Value)
    ensures NewValues(p, []) == [] && NewValues(p, [a]) == [NewValue(p, a)]
    ensures SafeV(p, a) ==> SafeVs(p, [a])
  {
    NewValuesAre(p, [a], [NewValue(p, a)]);
  }

  lemma NullCoalSame(p: Pass, w: World, fuel: nat, a: Expr, b: Expr, st: State, st': State)
    requires SameTwo(p, w, fuel, a, a, b, b, st, st')
    ensures SameResult(p, Eval(w, fuel, NullCoal(a, b), st), Eval(w, fuel, NullCoal(a, b), st'))
  {
    hide SameState, SafeV, Finish, EvalAll;
  }

  lemma OptChainSame(p: Pass, w: World, fuel: nat, a: Expr, name: string, st: State, st': State)
    requires Ready(p, w) && SameResult(p, Eval(w, fuel, a, st), Eval(w, fuel, a, st'))
    ensures SameResult(p, Eval(w, fuel, OptChain(a, name), st), Eval(w, fuel, OptChain(a, name), st'))
  {
    hide Ready, SameState, Look, SafeV, SafeVs, NewValues, Finish, EvalAll;
    var x, x' := Eval(w, fuel, a, st), Eval(w, fuel, a, st');
    if x.Got? {
      ListOf(p, x.value);
      LookSame(p, w, "." + name, [x.value], x.st, x'.st);
    }
  }

  lemma AssignExprSame(p: Pass, w: World, fuel: nat, x: string, a: Expr, a': Expr, st: State, st': State)
    requires Live(p, x) && SafeNames(p, [x]) && SameResult(p, Eval(w, fuel, a, st), Eval(w, fuel, a', st'))
    ensures SameResult(p, Eval(w, fuel, Set(Absent, x, a), st), Eval(w, fuel, Set(Absent, x, a'), st'))
  {
    hide SameState, Assign, SafeV, NewValue, Finish, EvalAll, Look, Act, CallProc, Operated, Truthy, Operands, Called;
    var v, v' := Eval(w, fuel, a, st), Eval(w, fuel, a', st');
    if v.Got? {
      OtherName(p, x, v.value);
      AssignState(p, v.st, v'.st, x, v.value);
    }
  }

  /** Any value will do for a name that no candidate has. */
  lemma OtherName(p: Pass, x: string, v: Value)
    requires SafeNames(p, [x])
    ensures KeepsName(p, x, v)
  {
    assert [x][0] == x;
  }

  lemma AssignState(p: Pass, st: State, st': State, x: string, v: Value)
    requires SameState(p, st, st') && Live(p, x) && SafeV(p, v) && KeepsName(p, x, v)
    ensures var a, a' := Assign(st.scopes, x, v), Assign(st'.scopes, x, NewValue(p, v));
            && (a.Some? <==> a'.Some?)
            && (a.Some? ==> SameState(p, st.(scopes := a.value), st'.(scopes := a'.value)))
  {
    hide SameScopes, SafeTrace, NewTrace, Assign, SafeV, NewValue, KeepsName;
    AssignSame(p, st.scopes, st'.scopes, x, v);
  }

  /** What a node does with operand values is the same on both sides. */
  lemma FinishSame(p: Pass, w: World, e: Expr, es: seq<Expr>, vs: seq<Value>, st: State, st': State)
    requires Ready(p, w) && Plain(e) && |vs| == |es| == |Operands(e)| && (e.Variable? ==> Live(p, e.name))
    requires SameState(p, st, st') && SafeVs(p, vs)
    ensures SameResult(p, Finish(w, e, vs, st), Finish(w, Rebuild(e, es), NewValues(p, vs), st'))
  {
    hide Ready, SameScopes, SafeTrace, NewTrace, Look, Act, IndexValue, KeyList;
    if e.Variable? {
      LookupSame(p, st.scopes, st'.scopes, e.name);
    } else if e.Index? {
      IndexSame(p, w.host, vs[0], vs[1]);
    } else if e.Dict? {
      KeysSame(p, e.keys, vs);
      LookSame(p, w, "{}", [KeyList(e.keys)] + vs, st, st');
    } else if Acts(e) {
      FinishActSame(p, w, e, es, vs, st, st');
    } else if Looks(e) {
      FinishLookSame(p, w, e, es, vs, st, st');
    }
  }

  predicate Looks(e: Expr) { e.Tuple? || e.Slice? || e.Get? || e.Range? || e.Interp? || e.Unwrap? }

  lemma FinishLookSame(p: Pass, w: World, e: Expr, es: seq<Expr>, vs: seq<Value>, st: State, st': State)
    requires Ready(p, w) && Looks(e) && |vs| == |es| == |Operands(e)|
    requires SameState(p, st, st') && SafeVs(p, vs)
    ensures SameResult(p, Finish(w, e, vs, st), Finish(w, Rebuild(e, es), NewValues(p, vs), st'))
  {
    hide Ready, SameState, Look, Act, IndexValue, KeyList, NewValues, SafeVs, SafeV, NewValue;
    LookSame(p, w, LookName(e), vs, st, st');
  }

  predicate Acts(e: Expr) { e.IndexSet? || e.Set? || e.Super? || e.Await? }

  lemma FinishActSame(p: Pass, w: World, e: Expr, es: seq<Expr>, vs: seq<Value>, st: State, st': State)
    requires Ready(p, w) && Acts(e) && Plain(e) && |vs| == |es| == |Operands(e)|
    requires SameState(p, st, st') && SafeVs(p, vs)
    ensures SameResult(p, Finish(w, e, vs, st), Finish(w, Rebuild(e, es), NewValues(p, vs), st'))
  {
    hide Ready, SameState, Look, Act, IndexValue, KeyList, NewValues, SafeVs, SafeV, NewValue;
    ActSame(p, w, ActName(e), vs, st, st');
  }

  function LookName(e: Expr): string {
    match e
    case Tuple(_) => "()"
    case Slice(_, _, _) => "[:]"
    case Get(_, property) => "." + property
    case Range(_, _, inclusive) => if inclusive then "..=" else ".."
    case Interp(template, _) => "text " + template
    case _ => "unwrap"
  }

  function ActName(e: Expr): string {
    match e
    case IndexSet(_, _, _) => "[]="
    case Set(_, property, _) => "." + property + "="
    case Super(m) => "super." + m
    case _ => "await"
  }

  /** A node that evaluates its operands first. */
  lemma PlainSame(p: Pass, w: World, fuel: nat, e: Expr, es: seq<Expr>, st: State, st': State)
    requires Ready(p, w) && Plain(e) && |es| == |Operands(e)| && (e.Variable? ==> Live(p, e.name))
             && Plain(Rebuild(e, es))
    requires SameResults(p, EvalAll(w, fuel, Operands(e), st), EvalAll(w, fuel, es, st'))
    ensures SameResult(p, Eval(w, fuel, e, st), Eval(w, fuel, Rebuild(e, es), st'))
  {
    assert Rebuild(e, es).Interp? <==> e.Interp?;
    hide Ready, SameState, Finish, EvalAll, SafeVs, NewValues, NewValue, SafeV, Operands, Rebuild;
    var vs, vs' := EvalAll(w, fuel, Operands(e), st), EvalAll(w, fuel, es, st');
    if vs.Got? {
      FinishSame(p, w, e, es, vs.value, vs.st, vs'.st);
    }
  }

  lemma KeysSame(p: Pass, keys: seq<string>, vs: seq<Value>)
    requires SafeVs(p, vs)
    ensures NewValues(p, [KeyList(keys)] + vs) == [KeyList(keys)] + NewValues(p, vs)
    ensures SafeVs(p, [KeyList(keys)] + vs)
  {
    var k := KeyList(keys);
    assert NewValue(p, k) == k by {
      NewValuesAre(p, k.elems, k.elems);
    }
    NewValuesAre(p, [k] + vs, [k] + NewValues(p, vs));
  }

  lemma ConsSame(p: Pass, v: Value, vs: seq<Value>)
    requires SafeV(p, v) && SafeVs(p, vs)
    ensures NewValues(p, [v] + vs) == [NewValue(p, v)] + NewValues(p, vs) && SafeVs(p, [v] + vs)
  {
    hide NewValue, SafeV;
    NewValuesAre(p, [v] + vs, [NewValue(p, v)] + NewValues(p, vs));
  }

  /** The next element of a list of operands. */
  lemma ConsResults(p: Pass, w: World, fuel: nat, es: seq<Expr>, es': seq<Expr>, st: State, st': State)
    requires es != [] && es' != []
    requires SameResult(p, Eval(w, fuel, es[0], st), Eval(w, fuel, es'[0], st'))
    requires Eval(w, fuel, es[0], st).Got? ==>
               SameResults(p, EvalAll(w, fuel, es[1..], Eval(w, fuel, es[0], st).st),
                           EvalAll(w, fuel, es'[1..], Eval(w, fuel, es'[0], st').st))
    ensures SameResults(p, EvalAll(w, fuel, es, st), EvalAll(w, fuel, es', st'))
  {
    hide SameState, Eval, SafeVs, NewValues, SafeV, NewValue;
    var v := Eval(w, fuel, es[0], st);
    if v.Got? {
      var vs := EvalAll(w, fuel, es[1..], v.st);
      if vs.Got? {
        ConsSame(p, v.value, vs.value);
      }
    }
  }

  // ---------- calls ----------

  /** The proc's body and what the pass made of it end alike. */
  lemma BodySame(p: Pass, w: World, fuel: nat, f: Value, args: seq<Value>, st: State, st': State)
    requires f.FunV? && |args| == |f.sig.params| && SameState(p, st, st') && SafeVs(p, args)
    requires st.scopes != [] ==>
               SameOutcome(p, ExecAll(w, fuel, f.body, st.(scopes := [st.scopes[0], Bind(f.sig.params, args)])),
                           ExecAll(w, fuel, NewList(p, f.body),
                                   st'.(scopes := [st'.scopes[0], Bind(f.sig.params, NewValues(p, args))])))
    ensures SameResult(p, RunProc(w, fuel, f, args, st), RunProc(w, fuel, NewValue(p, f), NewValues(p, args), st'))
  {
    hide ExecAll, Bind, SafeVs, NewValues, SafeV, SafeTrace, NewTrace, SameScope, NewList, Back;
    BoolSame(p);
    if st.scopes != [] {
      var o := ExecAll(w, fuel, f.body, st.(scopes := [st.scopes[0], Bind(f.sig.params, args)]));
      var o' := ExecAll(w, fuel, NewList(p, f.body),
                        st'.(scopes := [st'.scopes[0], Bind(f.sig.params, NewValues(p, args))]));
      if !o.Failed? && !o.TimedOut? {
        BackSame(p, st, st', o.st, o'.st);
      }
    }
  }

  lemma BackSame(p: Pass, st: State, st': State, t: State, t': State)
    requires SameState(p, st, st') && SameState(p, t, t')
    ensures SameState(p, Back(st, t), Back(st', t'))
  {
    hide SameScope, SafeTrace, NewTrace;
  }

  lemma EnterSame(p: Pass, f: Value, args: seq<Value>, st: State, st': State)
    requires f.FunV? && |args| == |f.sig.params| && SameState(p, st, st') && SafeVs(p, args) && st.scopes != []
    requires SafeNames(p, f.sig.params)
    ensures SameState(p, st.(scopes := [st.scopes[0], Bind(f.sig.params, args)]),
                      st'.(scopes := [st'.scopes[0], Bind(f.sig.params, NewValues(p, args))]))
  {
    BindSame(p, f.sig.params, args);
    hide SameScope, SafeTrace, NewTrace;
  }

  lemma NewFun(p: Pass, f: Value)
    ensures NewValue(p, f).FunV? <==> f.FunV?
    ensures f.FunV? ==> NewValue(p, f).sig == f.sig
    ensures f.FunV? && SafeV(p, f) ==>
              SafeL(p, f.body) && SafeNames(p, f.sig.params) && SafeEs(p, f.sig.defaults)
  {
  }

  /** A call: of a method, of a proc or of a builtin. */
  lemma CallSame(p: Pass, w: World, fuel: nat, c: Expr, c': Expr, es: seq<Expr>, es': seq<Expr>, st: State, st': State)
    requires Ready(p, w) && |es| == |es'| && (c.Get? <==> c'.Get?) && (c.Get? ==> c.property == c'.property)
    requires SameResult(p, Eval(w, fuel, Called(c), st), Eval(w, fuel, Called(c'), st'))
    requires Eval(w, fuel, Called(c), st).Got? ==>
               var f, f' := Eval(w, fuel, Called(c), st), Eval(w, fuel, Called(c'), st');
               var vs, vs' := EvalAll(w, fuel, es, f.st), EvalAll(w, fuel, es', f'.st);
               && SameResults(p, vs, vs')
               && (fuel > 0 && f.value.FunV? && Takes(f.value.sig, |es|) && vs.Got? ==>
                     SameResult(p, CallProc(w, fuel - 1, f.value, vs.value, vs.st),
                                CallProc(w, fuel - 1, f'.value, vs'.value, vs'.st)))
    ensures SameResult(p, Eval(w, fuel, Call(c, es), st), Eval(w, fuel, Call(c', es'), st'))
  {
    hide Ready, SameState, Act, SafeV, SafeVs, NewValues, NewValue, EvalAll, CallProc, Called, Finish;
    var f, f' := Eval(w, fuel, Called(c), st), Eval(w, fuel, Called(c'), st');
    if f.Got? {
      NewFun(p, f.value);
      var vs, vs' := EvalAll(w, fuel, es, f.st), EvalAll(w, fuel, es', f'.st);
      if vs.Got? {
        ConsSame(p, f.value, vs.value);
        ActSame(p, w, if c.Get? then "call ." + c.property else "call", [f.value] + vs.value, vs.st, vs'.st);
      }
    }
  }

  // ---------- the simulation ----------

  lemma FirstNew(p: Pass, d: bool, es: seq<Expr>)
    requires es != []
    ensures var r := MaybeNewAll(p, d, es); r[0] == MaybeNew(p, d, es[0]) && r[1..] == MaybeNewAll(p, d, es[1..])
    ensures SafeEs(p, es) ==> SafeE(p, es[0]) && SafeEs(p, es[1..])
  {
  }

  lemma {:induction false} EvalAllSame(p: Pass, w: World, fuel: nat, d: bool, es: seq<Expr>, st: State, st': State)
    requires Ready(p, w) && SafeEs(p, es) && SameState(p, st, st')
    ensures SameResults(p, EvalAll(w, fuel, es, st), EvalAll(w, fuel, MaybeNewAll(p, d, es), st'))
    decreases fuel, 0, SizeAll(es), 1 + |es|
  {
    if es == [] {
      ListOf(p, NilV);
    } else {
      var es' := MaybeNewAll(p, d, es);
      ListSizes(es);
      hide *;
      FirstNew(p, d, es);
      EvalSame(p, w, fuel, d, es[0], st, st');
      var v, v' := Eval(w, fuel, es[0], st), Eval(w, fuel, es'[0], st');
      if v.Got? {
        GotSame(p, v, v');
        EvalAllSame(p, w, fuel, d, es[1..], v.st, v'.st);
      }
      ConsResults(p, w, fuel, es, es', st, st');
    }
  }

  lemma ListSizes(es: seq<Expr>)
    requires es != []
    ensures Size(es[0]) <= SizeAll(es) && SizeAll(es[1..]) <= SizeAll(es)
  {
  }

  lemma {:induction false} EvalTwoSame(p: Pass, w: World, fuel: nat, d: bool, a: Expr, b: Expr, st: State, st': State)
    requires Ready(p, w) && SafeE(p, a) && SafeE(p, b) && SameState(p, st, st')
    ensures SameTwo(p, w, fuel, a, MaybeNew(p, d, a), b, MaybeNew(p, d, b), st, st')
    decreases fuel, 0, Size(a) + Size(b), 1
  {
    hide *;
    EvalSame(p, w, fuel, d, a, st, st');
    var x, x' := Eval(w, fuel, a, st), Eval(w, fuel, MaybeNew(p, d, a), st');
    if x.Got? {
      GotSame(p, x, x');
      EvalSame(p, w, fuel, d, b, x.st, x'.st);
    }
    MakeTwo(p, w, fuel, a, MaybeNew(p, d, a), b, MaybeNew(p, d, b), st, st');
  }

  lemma MakeTwo(p: Pass, w: World, fuel: nat, a: Expr, a': Expr, b: Expr, b': Expr, st: State, st': State)
    requires SameResult(p, Eval(w, fuel, a, st), Eval(w, fuel, a', st'))
    requires Eval(w, fuel, a, st).Got? ==>
               SameResult(p, Eval(w, fuel, b, Eval(w, fuel, a, st).st), Eval(w, fuel, b', Eval(w, fuel, a', st').st))
    ensures SameTwo(p, w, fuel, a, a', b, b', st, st')
  {
  }

  /** The folded node evaluates like the node with folded children. */
  lemma BinaryNew(p: Pass, w: World, fuel: nat, d: bool, op: Op, l: Expr, r: Expr, st: State)
    requires Ready(p, w)
    ensures Eval(w, fuel, MaybeNew(p, d, Binary(op, l, r)), st)
            == Eval(w, fuel, Binary(op, MaybeNew(p, d, l), MaybeNew(p, d, r)), st)
  {
    hide Eval, FoldBinary;
    if d && p.Fold? {
      FoldBinarySound(w, fuel, op, FoldExpr(p.h, l), FoldExpr(p.h, r), st);
    }
  }

  /** Which nodes folding and inlining enter. */
  predicate Entered(p: Pass, e: Expr) { p.Drop? || !(e.Await? || e.Range? || e.Unwrap? || e.Comptime? || e.Interp?) }

  lemma PlainNew(p: Pass, d: bool, e: Expr)
    requires Plain(e) && SafeE(p, e)
    ensures var es := MaybeNewAll(p, d && Entered(p, e), Operands(e));
            MaybeNew(p, d, e) == Rebuild(e, es) && Plain(Rebuild(e, es))
  {
    var es := Operands(e);
    if d && p.Fold? {
      if |es| == 1 { FoldThree(p.h, es[0], e, e); }
      if |es| == 2 { FoldThree(p.h, es[0], es[1], e); }
      if |es| == 3 { FoldThree(p.h, es[0], es[1], es[2]); }
    } else if d && p.Inlining? {
      InlinedPlain(p.cs, e);
    }
  }

  lemma InlinedPlain(cs: seq<Inline.Candidate>, e: Expr)
    requires Plain(e) && (e.Set? ==> !Inline.InlineExpr(cs, e.receiver).Absent?)
    ensures var es := if Entered(Inlining(cs), e) then Inline.InlineAll(cs, Operands(e)) else Operands(e);
            Inline.InlineExpr(cs, e) == Rebuild(e, es) && Plain(Rebuild(e, es))
  {
    var es := Operands(e);
    if |es| == 1 { Inline.InlineThree(cs, es[0], e, e); }
    if |es| == 2 { Inline.InlineThree(cs, es[0], es[1], e); }
    if |es| == 3 { Inline.InlineThree(cs, es[0], es[1], es[2]); }
  }

  lemma FoldThree(h: Host, a: Expr, b: Expr, c: Expr)
    ensures FoldExprs(h, [a]) == [FoldExpr(h, a)] && FoldExprs(h, [a, b]) == [FoldExpr(h, a), FoldExpr(h, b)]
    ensures FoldExprs(h, [a, b, c]) == [FoldExpr(h, a), FoldExpr(h, b), FoldExpr(h, c)]
    ensures FoldExpr(h, a).Absent? <==> a.Absent?
  {
    hide FoldBinary;
    assert [a, b, c][1..] == [b, c] && [b, c][1..] == [c] && [a, b][1..] == [b];
    assert [c][1..] == [] && [b][1..] == [] && [a][1..] == [];
    assert FoldExprs(h, [c]) == [FoldExpr(h, c)] && FoldExprs(h, [b]) == [FoldExpr(h, b)];
    FoldKind(h, a);
  }

  lemma FoldKind(h: Host, e: Expr)
    ensures FoldExpr(h, e).Absent? <==> e.Absent?
    ensures FoldExpr(h, e).Get? <==> e.Get?
    ensures e.Get? ==> FoldExpr(h, e).property == e.property && FoldExpr(h, e).receiver == FoldExpr(h, e.receiver)
  {
  }

  lemma SafeParts2(p: Pass, e: Expr)
    requires SafeE(p, e)
    ensures e.Binary? || e.NullCoal? ==> SafeE(p, e.left) && SafeE(p, e.right)
    ensures e.OptChain? ==> SafeE(p, e.receiver)
    ensures e.Call? ==> SafeE(p, e.callee) && SafeE(p, Called(e.callee)) && SafeEs(p, e.args)
    ensures e.Set? && e.receiver.Absent? ==> SafeE(p, e.value) && Live(p, e.property) && SafeNames(p, [e.property])
    ensures Plain(e) ==> SafeEs(p, Operands(e)) && (e.Variable? ==> Live(p, e.name))
  {
    if p.Inlining? {
      SafeCallee(p.cs, e);
    }
    if p.Drop? && e.Call? && e.callee.Get? {
      var g := e.callee;
      assert Operands(g) == [g.receiver] && [g.receiver][1..] == [];
      assert NamesExprs([g.receiver]) == NamesExpr(g.receiver) + NamesExprs([]);
    }
  }

  lemma SafeCallee(cs: seq<Inline.Candidate>, e: Expr)
    requires Inline.SafeExpr(cs, e)
    ensures e.Call? ==> Inline.SafeExpr(cs, Called(e.callee))
  {
    if e.Call? && e.callee.Get? {
      var g := e.callee;
      assert Operands(g) == [g.receiver] && [g.receiver][0] == g.receiver;
      assert Inline.SafeExpr(cs, g);
      assert Inline.SafeExprs(cs, Operands(g));
      assert Inline.SafeExpr(cs, Operands(g)[0]);
    }
  }

  /** An expression, and what the pass made of it, in related states. */
  lemma {:induction false} EvalSame(p: Pass, w: World, fuel: nat, d: bool, e: Expr, st: State, st': State)
    requires Ready(p, w) && SafeE(p, e) && SameState(p, st, st')
    ensures SameResult(p, Eval(w, fuel, e, st), Eval(w, fuel, MaybeNew(p, d, e), st'))
    decreases fuel, 0, Size(e), 0
  {
    SmallerParts(e);
    SkippedNew(p, d, e);
    hide Ready, SameState, Eval, EvalAll, SameResult, SameResults, SameTwo, FoldBinary, Size, SizeAll, MaybeNew,
         MaybeNewAll, Rebuild, Operands, SafeE, SafeEs, Called;
    SafeParts2(p, e);
    if e.Binary? {
      EvalTwoSame(p, w, fuel, d, e.left, e.right, st, st');
      BinarySame(p, w, fuel, e.op, e.left, MaybeNew(p, d, e.left), e.right, MaybeNew(p, d, e.right), st, st');
      BinaryNew(p, w, fuel, d, e.op, e.left, e.right, st');
    } else if e.NullCoal? {
      EvalTwoSame(p, w, fuel, false, e.left, e.right, st, st');
      NullCoalSame(p, w, fuel, e.left, e.right, st, st');
    } else if e.OptChain? {
      EvalSame(p, w, fuel, false, e.receiver, st, st');
      OptChainSame(p, w, fuel, e.receiver, e.member, st, st');
    } else if e.Call? {
      EvalCallSame(p, w, fuel, d, e.callee, e.args, st, st');
    } else if e.Set? && e.receiver == Absent {
      EvalSame(p, w, fuel, d, e.value, st, st');
      AssignExprSame(p, w, fuel, e.property, e.value, MaybeNew(p, d, e.value), st, st');
      SetNew(p, d, e.property, e.value);
    } else {
      var d' := d && Entered(p, e);
      EvalAllSame(p, w, fuel, d', Operands(e), st, st');
      PlainNew(p, d, e);
      PlainSame(p, w, fuel, e, MaybeNewAll(p, d', Operands(e)), st, st');
    }
  }

  lemma SmallerParts(e: Expr)
    ensures e.Binary? || e.NullCoal? ==> Size(e.left) + Size(e.right) < Size(e)
    ensures e.OptChain? ==> Size(e.receiver) < Size(e)
    ensures e.Call? ==> Size(e.callee) + SizeAll(e.args) < Size(e)
    ensures e.Set? ==> Size(e.value) < Size(e)
    ensures SizeAll(Operands(e)) < Size(e)
  {
    OperandsSmaller(e);
  }

  /** Nodes that folding leaves alone. */
  lemma SkippedNew(p: Pass, d: bool, e: Expr)
    ensures e.NullCoal? || e.OptChain? ==> MaybeNew(p, d, e) == e
    ensures MaybeNew(p, false, e) == e
    ensures e.NullCoal? ==> MaybeNew(p, false, e.left) == e.left && MaybeNew(p, false, e.right) == e.right
    ensures e.OptChain? ==> MaybeNew(p, false, e.receiver) == e.receiver
  {
  }

  lemma SetNew(p: Pass, d: bool, x: string, b: Expr)
    ensures MaybeNew(p, d, Set(Absent, x, b)) == Set(Absent, x, MaybeNew(p, d, b))
  {
    assert MaybeNew(p, d, Absent) == Absent;
  }

  /** The call with a new callee and new arguments. */
  function NewCall(p: Pass, d: bool, c: Expr, es: seq<Expr>): Expr {
    Call(MaybeNew(p, d, c), MaybeNewAll(p, d, es))
  }

  /** Is the call replaced by a proc's result? */
  predicate Replaced(p: Pass, c: Expr, es: seq<Expr>) {
    p.Inlining? && Inline.Inlined(p.cs, Inline.InlineExpr(p.cs, c), |es|)
  }

  lemma CallNew(p: Pass, d: bool, c: Expr, es: seq<Expr>)
    requires SafeE(p, Call(c, es))
    ensures !(d && Replaced(p, c, es)) ==> MaybeNew(p, d, Call(c, es)) == NewCall(p, d, c, es)
    ensures MaybeNew(p, d, c).Get? <==> c.Get?
    ensures c.Get? ==> MaybeNew(p, d, c).property == c.property
    ensures Called(MaybeNew(p, d, c)) == MaybeNew(p, d, Called(c))
  {
    if p.Fold? { FoldKind(p.h, c); }
  }

  lemma {:induction false} EvalCallSame(p: Pass, w: World, fuel: nat, d: bool, c: Expr, es: seq<Expr>, st: State,
                                        st': State)
    requires Ready(p, w) && SafeE(p, Call(c, es)) && SafeE(p, Called(c)) && SafeEs(p, es) && SameState(p, st, st')
    ensures SameResult(p, Eval(w, fuel, Call(c, es), st), Eval(w, fuel, MaybeNew(p, d, Call(c, es)), st'))
    decreases fuel, 0, Size(c) + SizeAll(es), 3 + |es|
  {
    hide *;
    CallNew(p, d, c, es);
    var c', es' := MaybeNew(p, d, c), MaybeNewAll(p, d, es);
    EvalSame(p, w, fuel, d, Called(c), st, st');
    var f, f' := Eval(w, fuel, Called(c), st), Eval(w, fuel, Called(c'), st');
    if f.Got? {
      GotSame(p, f, f');
      ArgsSame(p, w, fuel, d, es, f.value, f.st, f'.st);
    }
    CallSame(p, w, fuel, c, c', es, es', st, st');
    if d && Replaced(p, c, es) {
      ReplacedSame(p, w, fuel, c, es, st, st');
    } else {
      NewCallIs(p, d, c, es);
    }
  }

  lemma NewCallIs(p: Pass, d: bool, c: Expr, es: seq<Expr>)
    ensures NewCall(p, d, c, es) == Call(MaybeNew(p, d, c), MaybeNewAll(p, d, es))
  {
  }

  /** A replaced call has the value that the call would have. */
  lemma ReplacedSame(p: Pass, w: World, fuel: nat, c: Expr, es: seq<Expr>, st: State, st': State)
    requires Ready(p, w) && SafeE(p, Call(c, es)) && SameState(p, st, st') && Replaced(p, c, es)
    requires SameResult(p, Eval(w, fuel, Call(c, es), st),
                        Eval(w, fuel, Call(MaybeNew(p, true, c), MaybeNewAll(p, true, es)), st'))
    ensures SameResult(p, Eval(w, fuel, Call(c, es), st), Eval(w, fuel, MaybeNew(p, true, Call(c, es)), st'))
  {
    ReplacedNew(p, c, es);
    var x := MaybeNew(p, true, c).name;
    var es' := MaybeNewAll(p, true, es);
    var k := Inline.FindCandidate(p.cs, x).value;
    if Eval(w, fuel, Call(Variable(x), es'), st').Got? {
      CalleeBound(w, fuel, x, es', st');
      BoundToItself(p, w, x, st, st');
      Inline.CallReplaced(w, fuel, k, x, es', st');
    }
    if Eval(w, fuel, Call(Variable(x), es'), st').Threw? {
      CalleeBound(w, fuel, x, es', st');
      BoundToItself(p, w, x, st, st');
      Inline.CallRaisesNothing(w, fuel, k, x, es', st');
    }
    hide *;
    MayFail(p, Eval(w, fuel, Call(c, es), st), Eval(w, fuel, Call(Variable(x), es'), st'),
            Eval(w, fuel, MaybeNew(p, true, Call(c, es)), st'));
  }

  /** Failures of the original need not be matched under inlining. */
  lemma MayFail(p: Pass, r: Result<Value>, a: Result<Value>, b: Result<Value>)
    requires p.Inlining? && SameResult(p, r, a) && (a.Got? ==> b == a) && !a.Threw?
    ensures SameResult(p, r, b)
  {
  }

  lemma ReplacedNew(p: Pass, c: Expr, es: seq<Expr>)
    requires p.Inlining? && Inline.AllGood(p.cs) && SafeE(p, Call(c, es)) && Replaced(p, c, es)
    ensures MaybeNew(p, true, c).Variable?
    ensures var x := MaybeNew(p, true, c).name; var es' := MaybeNewAll(p, true, es);
            && Inline.FindCandidate(p.cs, x).Some?
            && var k := Inline.FindCandidate(p.cs, x).value;
            && Inline.Good(k) && |es'| == |k.params| && AllQuiet(es')
            && MaybeNew(p, true, Call(c, es)) == Inline.Substitute(k.result, k.params, es')
  {
    Inline.AllInlineQuiet(p.cs, es);
  }

  lemma CalleeBound(w: World, fuel: nat, x: string, es: seq<Expr>, st: State)
    requires Eval(w, fuel, Call(Variable(x), es), st).Got? || Eval(w, fuel, Call(Variable(x), es), st).Threw?
    ensures Lookup(st.scopes, x).Some? && st.scopes != []
  {
    assert EvalAll(w, fuel, [], st) == Got([], st);
    assert Eval(w, fuel, Variable(x), st) == Pure(Lookup(st.scopes, x), st);
  }

  /** Whatever a candidate's name means is the candidate. */
  lemma BoundToItself(p: Pass, w: World, x: string, st: State, st': State)
    requires p.Inlining? && Inline.AllGood(p.cs) && SameState(p, st, st')
    requires Inline.FindCandidate(p.cs, x).Some? && Lookup(st'.scopes, x).Some?
    ensures var k, v := Inline.FindCandidate(p.cs, x).value, Lookup(st'.scopes, x).value;
            v.FunV? && v.sig.params == k.params && Inline.SingleReturn(v.body) == Some(k.result)
  {
    hide SameScopes, Inline.SingleReturn, Inline.InlineStmts;
    LookupSame(p, st.scopes, st'.scopes, x);
    var k, v := Inline.FindCandidate(p.cs, x).value, Lookup(st.scopes, x).value;
    Inline.CandidateUnchanged(p.cs, k, v.body);
  }

  lemma {:induction false} ArgsSame(p: Pass, w: World, fuel: nat, d: bool, es: seq<Expr>, f: Value, st: State,
                                    st': State)
    requires Ready(p, w) && SafeEs(p, es) && SameState(p, st, st') && SafeV(p, f)
    ensures var vs, vs' := EvalAll(w, fuel, es, st), EvalAll(w, fuel, MaybeNewAll(p, d, es), st');
            && SameResults(p, vs, vs')
            && (fuel > 0 && f.FunV? && Takes(f.sig, |es|) && vs.Got? ==>
                  && vs'.Got? && NewValue(p, f).FunV? && Takes(NewValue(p, f).sig, |vs'.value|)
                  && SameResult(p, CallProc(w, fuel - 1, f, vs.value, vs.st),
                                CallProc(w, fuel - 1, NewValue(p, f), vs'.value, vs'.st)))
    decreases fuel, 0, SizeAll(es), 2 + |es|
  {
    hide *;
    EvalAllSame(p, w, fuel, d, es, st, st');
    var vs, vs' := EvalAll(w, fuel, es, st), EvalAll(w, fuel, MaybeNewAll(p, d, es), st');
    if fuel > 0 && f.FunV? && Takes(f.sig, |es|) && vs.Got? {
      GotAllSame(p, vs, vs');
      NewFun(p, f);
      CallProcSame(p, w, fuel - 1, f, NewValue(p, f), vs.value, vs'.value, vs.st, vs'.st);
    }
  }

  lemma GotSame(p: Pass, v: Result<Value>, v': Result<Value>)
    requires SameResult(p, v, v') && v.Got?
    ensures v'.Got? && SameState(p, v.st, v'.st) && v'.value == NewValue(p, v.value) && SafeV(p, v.value)
  {
  }

  lemma GotAllSame(p: Pass, vs: Result<seq<Value>>, vs': Result<seq<Value>>)
    requires SameResults(p, vs, vs') && vs.Got?
    ensures vs'.Got? && SameState(p, vs.st, vs'.st) && vs'.value == NewValues(p, vs.value) && SafeVs(p, vs.value)
  {
  }

  lemma {:induction false} RunProcSame(p: Pass, w: World, fuel: nat, f: Value, f': Value, args: seq<Value>,
                                       args': seq<Value>, st: State, st': State)
    requires f.FunV? && |args| == |f.sig.params| && SameState(p, st, st') && SafeVs(p, args) && SafeV(p, f)
    requires Ready(p, w) && f' == NewValue(p, f) && args' == NewValues(p, args) && f'.FunV? && f'.sig == f.sig
    ensures SameResult(p, RunProc(w, fuel, f, args, st), RunProc(w, fuel, f', args', st'))
    decreases fuel, 2
  {
    hide Ready, SameState, RunProc, ExecAll, SafeVs, SameOutcome, SameResult, NewValue, NewValues, SafeV;
    if st.scopes != [] {
      NewFun(p, f);
      EnterSame(p, f, args, st, st');
      ScopesKnown(p, st, st');
      ExecListSame(p, w, fuel, f.body, st.(scopes := [st.scopes[0], Bind(f.sig.params, args)]),
                   st'.(scopes := [st'.scopes[0], Bind(f.sig.params, args')]));
    }
    BodySame(p, w, fuel, f, args, st, st');
  }

  /** The defaults of missing arguments, which no pass changes, and then the proc. */
  lemma {:induction false} CallProcSame(p: Pass, w: World, fuel: nat, f: Value, f': Value, args: seq<Value>,
                                        args': seq<Value>, st: State, st': State)
    requires f.FunV? && Takes(f.sig, |args|) && SameState(p, st, st') && SafeVs(p, args) && SafeV(p, f)
    requires Ready(p, w) && f' == NewValue(p, f) && args' == NewValues(p, args) && f'.FunV? && f'.sig == f.sig
    ensures SameResult(p, CallProc(w, fuel, f, args, st), CallProc(w, fuel, f', args', st'))
    decreases fuel, 3
  {
    var es := Missing(f.sig, |args|);
    NewFun(p, f);
    SafeSuffix(p, f.sig.defaults, |f.sig.defaults| - |es|);
    hide Ready, SameState, ExecAll, SafeVs, SameOutcome, SameResult, NewValue, NewValues, SafeV, RunProc, EvalAll,
         SafeEs, SafeL, SafeNames;
    EvalAllSame(p, w, fuel, false, es, st, st');
    var ds, ds' := EvalAll(w, fuel, es, st), EvalAll(w, fuel, es, st');
    if ds.Got? {
      GotAllSame(p, ds, ds');
      AppendSame(p, args, ds.value);
      RunProcSame(p, w, fuel, f, f', args + ds.value, args' + ds'.value, ds.st, ds'.st);
    }
    DefaultsThen(p, w, fuel, f, f', args, args', st, st');
  }

  lemma DefaultsThen(p: Pass, w: World, fuel: nat, f: Value, f': Value, args: seq<Value>, args': seq<Value>, st: State,
                     st': State)
    requires f.FunV? && f'.FunV? && f'.sig == f.sig && Takes(f.sig, |args|) && |args| == |args'|
    requires var ds, ds' := EvalAll(w, fuel, Missing(f.sig, |args|), st), EvalAll(w, fuel, Missing(f.sig, |args|), st');
             && SameResults(p, ds, ds')
             && (ds.Got? ==>
                   SameResult(p, RunProc(w, fuel, f, args + ds.value, ds.st),
                              RunProc(w, fuel, f', args' + ds'.value, ds'.st)))
    ensures SameResult(p, CallProc(w, fuel, f, args, st), CallProc(w, fuel, f', args', st'))
  {
    hide SameState, EvalAll, RunProc, SafeVs, NewValues, NewValue, SafeV;
  }

  lemma AppendSame(p: Pass, a: seq<Value>, b: seq<Value>)
    requires SafeVs(p, a) && SafeVs(p, b)
    ensures NewValues(p, a + b) == NewValues(p, a) + NewValues(p, b) && SafeVs(p, a + b)
  {
    hide NewValue, SafeV;
    NewValuesAre(p, a + b, NewValues(p, a) + NewValues(p, b));
  }

  lemma {:induction false} SafeSuffix(p: Pass, es: seq<Expr>, n: nat)
    requires SafeEs(p, es) && n <= |es|
    ensures SafeEs(p, es[n..])
    decreases n
  {
    if n > 0 {
      FirstNew(p, false, es);
      SafeSuffix(p, es[1..], n - 1);
      assert es[1..][n - 1..] == es[n..];
    } else {
      assert es[0..] == es;
    }
  }

  lemma ScopesKnown(p: Pass, st: State, st': State)
    requires SameState(p, st, st')
    ensures |st.scopes| == |st'.scopes|
  {
  }

  // ---------- statements ----------

  lemma PrintSame(p: Pass, w: World, fuel: nat, e: Expr, e': Expr, st: State, st': State)
    requires SameResult(p, Eval(w, fuel, e, st), Eval(w, fuel, e', st'))
    ensures SameOutcome(p, Exec(w, fuel, Print(e), st), Exec(w, fuel, Print(e'), st'))
  {
    hide SameState, Eval, SafeV, NewValue, NewValues;
    var v, v' := Eval(w, fuel, e, st), Eval(w, fuel, e', st');
    if v.Got? {
      ListOf(p, v.value);
      TraceSame(p, v.st, v'.st, Event("print", [v.value]));
    }
  }

  lemma SimpleSame(p: Pass, w: World, fuel: nat, e: Expr, e': Expr, st: State, st': State)
    requires SameResult(p, Eval(w, fuel, e, st), Eval(w, fuel, e', st'))
    ensures SameOutcome(p, Exec(w, fuel, ExprStmt(e), st), Exec(w, fuel, ExprStmt(e'), st'))
    ensures SameOutcome(p, Exec(w, fuel, Return(e), st), Exec(w, fuel, Return(e'), st'))
  {
    hide SameState, Eval, SafeV, NewValue;
  }

  lemma LetSame(p: Pass, w: World, fuel: nat, e: Expr, e': Expr, x: string, st: State, st': State)
    requires SafeNames(p, [x]) && SameResult(p, Eval(w, fuel, e, st), Eval(w, fuel, e', st'))
    ensures SameOutcome(p, Exec(w, fuel, Let(x, e), st), Exec(w, fuel, Let(x, e'), st'))
  {
    hide SameState, Eval, SafeV, NewValue, Define, ExecAll, ExecEach, SafeNames, KeepsName, LenValue;
    var v, v' := Eval(w, fuel, e, st), Eval(w, fuel, e', st');
    if v.Got? {
      OtherName(p, x, v.value);
      DefineState(p, v.st, v'.st, x, v.value, false);
    }
  }

  lemma ProcSame(p: Pass, w: World, fuel: nat, x: string, sig: Signature, body: seq<Stmt>, st: State, st': State)
    requires SameState(p, st, st') && SafeS(p, Proc(x, sig, body))
    ensures SameOutcome(p, Exec(w, fuel, Proc(x, sig, body), st),
                        Exec(w, fuel, Proc(x, sig, NewList(p, body)), st'))
  {
    var f := FunV(x, sig, body);
    ProcParts(p, x, sig, body);
    ProcRuns(w, fuel, x, sig, body, st);
    ProcRuns(w, fuel, x, sig, NewList(p, body), st');
    hide Exec, NewList, SafeTrace, NewTrace, Define, SameScope, SafeL, SafeEs, SafeNames, KeepsName, SafeS;
    assert SafeV(p, f) && NewValue(p, f) == FunV(x, sig, NewList(p, body));
    DefineSame(p, st.scopes, st'.scopes, x, f, true);
  }

  lemma ProcRuns(w: World, fuel: nat, x: string, sig: Signature, body: seq<Stmt>, st: State)
    ensures Exec(w, fuel, Proc(x, sig, body), st) == if |st.scopes| != 1 then Failed
            else Normal(st.(scopes := Define(st.scopes, x, FunV(x, sig, body), true)))
  {
    hide Define;
  }

  lemma ProcParts(p: Pass, x: string, sig: Signature, body: seq<Stmt>)
    requires SafeS(p, Proc(x, sig, body))
    ensures SafeL(p, body) && SafeNames(p, sig.params) && SafeEs(p, sig.defaults)
    ensures KeepsName(p, x, FunV(x, sig, body))
  {
  }

  lemma IfSame(p: Pass, w: World, fuel: nat, e: Expr, e': Expr, t: seq<Stmt>, t': seq<Stmt>, f: seq<Stmt>,
               f': seq<Stmt>, st: State, st': State)
    requires SameResult(p, Eval(w, fuel, e, st), Eval(w, fuel, e', st'))
    requires Eval(w, fuel, e, st).Got? ==>
               var v, v' := Eval(w, fuel, e, st), Eval(w, fuel, e', st');
               && SameOutcome(p, ExecAll(w, fuel, t, v.st), ExecAll(w, fuel, t', v'.st))
               && SameOutcome(p, ExecAll(w, fuel, f, v.st), ExecAll(w, fuel, f', v'.st))
    ensures SameOutcome(p, Exec(w, fuel, If(e, t, f), st), Exec(w, fuel, If(e', t', f'), st'))
  {
    hide SameState, Eval, SafeV, NewValue, Truthy, ExecAll;
    var v := Eval(w, fuel, e, st);
    if v.Got? {
      TruthySame(p, w.host, v.value);
    }
  }

  lemma Literals(w: World, fuel: nat, st: State)
    ensures Eval(w, fuel, Nil, st) == Got(NilV, st)
    ensures forall b :: Eval(w, fuel, Bool(b), st) == Got(BoolV(b), st)
  {
    assert EvalAll(w, fuel, [], st) == Got([], st);
  }

  /** A folded `if` runs like the `if` with folded parts. */
  lemma IfNew(p: Pass, w: World, fuel: nat, e: Expr, t: seq<Stmt>, f: seq<Stmt>, st: State)
    ensures Exec(w, fuel, NewStmt(p, If(e, t, f)), st)
            == Exec(w, fuel, If(NewExpr(p, e), NewList(p, t), NewList(p, f)), st)
  {
    Literals(w, fuel, st);
    hide FoldExpr, DceList, Eval;
  }

  /** And so does a folded loop. */
  lemma WhileNew(p: Pass, w: World, fuel: nat, e: Expr, body: seq<Stmt>, st: State)
    ensures Exec(w, fuel, NewStmt(p, While(e, body)), st)
            == Exec(w, fuel, While(NewExpr(p, e), NewList(p, body)), st)
  {
    Literals(w, fuel, st);
    hide FoldExpr, DceList, FoldStmts, Eval;
  }

  lemma WhileSame(p: Pass, w: World, fuel: nat, e: Expr, e': Expr, b: seq<Stmt>, b': seq<Stmt>, st: State, st': State)
    requires SameResult(p, Eval(w, fuel, e, st), Eval(w, fuel, e', st'))
    requires Eval(w, fuel, e, st).Got? && fuel > 0 ==>
               var o := ExecAll(w, fuel - 1, b, Eval(w, fuel, e, st).st);
               var o' := ExecAll(w, fuel - 1, b', Eval(w, fuel, e', st').st);
               && SameOutcome(p, o, o')
               && (o.Normal? || o.Continued? ==>
                     SameOutcome(p, Exec(w, fuel - 1, While(e, b), o.st), Exec(w, fuel - 1, While(e', b'), o'.st)))
    ensures SameOutcome(p, Exec(w, fuel, While(e, b), st), Exec(w, fuel, While(e', b'), st'))
  {
    hide SameState, Eval, SafeV, NewValue, Truthy, ExecAll;
    var v := Eval(w, fuel, e, st);
    if v.Got? {
      TruthySame(p, w.host, v.value);
    }
  }

  lemma ForSame(p: Pass, w: World, fuel: nat, x: string, e: Expr, e': Expr, b: seq<Stmt>, b': seq<Stmt>, st: State,
                st': State)
    requires SameResult(p, Eval(w, fuel, e, st), Eval(w, fuel, e', st'))
    requires Eval(w, fuel, e, st).Got? && LenValue(Eval(w, fuel, e, st).value).Some? ==>
               var v, v' := Eval(w, fuel, e, st), Eval(w, fuel, e', st');
               && LenValue(v'.value).Some?
               && SameOutcome(p, ExecEach(w, fuel, x, v.value, 0, b, v.st.(scopes := v.st.scopes + [map[]])),
                              ExecEach(w, fuel, x, v'.value, 0, b', v'.st.(scopes := v'.st.scopes + [map[]])))
    ensures SameOutcome(p, Exec(w, fuel, For(x, e, b), st), Exec(w, fuel, For(x, e', b'), st'))
  {
    hide SameState, Eval, SafeV, NewValue, LenValue, ExecEach, DropScope;
    var v, v' := Eval(w, fuel, e, st), Eval(w, fuel, e', st');
    if v.Got? {
      ElementSame(p, v.value, 0);
      if LenValue(v.value).Some? {
        var o := ExecEach(w, fuel, x, v.value, 0, b, v.st.(scopes := v.st.scopes + [map[]]));
        var o' := ExecEach(w, fuel, x, v'.value, 0, b', v'.st.(scopes := v'.st.scopes + [map[]]));
        if Finished(o) { DropSame(p, o.st, o'.st); }
      }
    }
  }

  lemma DropSame(p: Pass, st: State, st': State)
    requires SameState(p, st, st')
    ensures SameState(p, DropScope(st), DropScope(st'))
  {
    hide SameScope, SafeTrace, NewTrace;
  }

  lemma PushSame(p: Pass, st: State, st': State)
    requires SameState(p, st, st')
    ensures SameState(p, st.(scopes := st.scopes + [map[]]), st'.(scopes := st'.scopes + [map[]]))
  {
    hide SafeTrace, NewTrace;
  }

  lemma DefineState(p: Pass, st: State, st': State, x: string, v: Value, fixed: bool)
    requires SameState(p, st, st') && SafeV(p, v) && KeepsName(p, x, v)
    ensures SameState(p, st.(scopes := Define(st.scopes, x, v, fixed)),
                      st'.(scopes := Define(st'.scopes, x, NewValue(p, v), fixed)))
  {
    hide SameScopes, SafeTrace, NewTrace, Define, SafeV, NewValue, KeepsName;
    DefineSame(p, st.scopes, st'.scopes, x, v, fixed);
  }

  lemma GoOn(p: Pass, o: Outcome, o': Outcome)
    requires SameOutcome(p, o, o') && (o.Normal? || o.Continued?)
    ensures (o.Normal? <==> o'.Normal?) && (o.Continued? <==> o'.Continued?) && SameState(p, o.st, o'.st)
  {
  }

  /** A statement that the pass keeps. */
  lemma {:induction false} ExecSame(p: Pass, w: World, fuel: nat, s: Stmt, st: State, st': State)
    requires Ready(p, w) && SafeS(p, s) && SameState(p, st, st')
    ensures SameOutcome(p, Exec(w, fuel, s, st), Exec(w, fuel, NewStmt(p, s), st'))
    decreases fuel, 1, s, if s.Match? then 4 + 2 * |s.cases| else 2
  {
    hide Ready, SameState, Exec, ExecAll, Eval, SameResult, SameOutcome, FoldExpr, DceList, FoldStmts;
    match s
    case Print(e) =>
      EvalSame(p, w, fuel, true, e, st, st');
      PrintSame(p, w, fuel, e, NewExpr(p, e), st, st');
    case ExprStmt(e) =>
      EvalSame(p, w, fuel, true, e, st, st');
      SimpleSame(p, w, fuel, e, NewExpr(p, e), st, st');
    case Return(e) =>
      EvalSame(p, w, fuel, true, e, st, st');
      SimpleSame(p, w, fuel, e, NewExpr(p, e), st, st');
    case Let(x, e) =>
      EvalSame(p, w, fuel, true, e, st, st');
      LetSame(p, w, fuel, e, NewExpr(p, e), x, st, st');
    case If(e, thn, els) => ExecIfSame(p, w, fuel, e, thn, els, st, st');
    case Block(body) =>
      ExecListSame(p, w, fuel, body, st, st');
      BlockRuns(w, fuel, body, st);
      BlockRuns(w, fuel, NewList(p, body), st');
    case While(e, body) => ExecWhileSame(p, w, fuel, e, body, st, st');
    case For(x, e, body) => ExecForSame(p, w, fuel, x, e, body, st, st');
    case Proc(x, sig, body) => ProcSame(p, w, fuel, x, sig, body, st, st');
    case Raise(e) =>
      EvalSame(p, w, fuel, true, e, st, st');
      RaiseSame(p, w, fuel, e, NewExpr(p, e), st, st');
    case Class(x, parent, methods) => ClassSame(p, w, fuel, x, parent, methods, st, st');
    case Try(block, handlers, final) => ExecTrySame(p, w, fuel, block, handlers, final, st, st');
    case Match(_, _, _) => ExecMatchSame(p, w, fuel, s, st, st');
    case _ => OtherStmtSame(p, w, fuel, s, st, st');
  }

  lemma {:induction false} ExecTrySame(p: Pass, w: World, fuel: nat, block: seq<Stmt>, handlers: seq<Handler>,
                                       final: seq<Stmt>, st: State, st': State)
    requires Ready(p, w) && SafeS(p, Try(block, handlers, final)) && SameState(p, st, st')
    ensures SameOutcome(p, Exec(w, fuel, Try(block, handlers, final), st),
                        Exec(w, fuel, NewStmt(p, Try(block, handlers, final)), st'))
    decreases fuel, 1, Try(block, handlers, final), 1
  {
    TryParts(p, block, handlers, final);
    TryRuns(w, fuel, block, handlers, final, st);
    TryRuns(w, fuel, NewList(p, block), NewHandlers(p, handlers), NewList(p, final), st');
    hide *;
    ExecListSame(p, w, fuel, block, st, st');
    var o, o' := ExecAll(w, fuel, block, st), ExecAll(w, fuel, NewList(p, block), st');
    ExecHandlersSame(p, w, fuel, handlers, o, o');
    FinallySame(p, w, fuel, final, ExecHandlers(w, fuel, handlers, o),
                ExecHandlers(w, fuel, NewHandlers(p, handlers), o'));
  }

  lemma TryParts(p: Pass, block: seq<Stmt>, handlers: seq<Handler>, final: seq<Stmt>)
    requires SafeS(p, Try(block, handlers, final))
    ensures SafeL(p, block) && SafeHs(p, handlers) && SafeL(p, final)
    ensures NewStmt(p, Try(block, handlers, final))
            == Try(NewList(p, block), NewHandlers(p, handlers), NewList(p, final))
  {
  }

  lemma TryRuns(w: World, fuel: nat, block: seq<Stmt>, handlers: seq<Handler>, final: seq<Stmt>, st: State)
    ensures Exec(w, fuel, Try(block, handlers, final), st)
            == AndFinally(w, fuel, final, ExecHandlers(w, fuel, handlers, ExecAll(w, fuel, block, st)))
  {
    hide ExecAll, ExecHandlers, AndFinally;
  }

  lemma {:induction false} ExecHandlersSame(p: Pass, w: World, fuel: nat, hs: seq<Handler>, o: Outcome, o': Outcome)
    requires Ready(p, w) && SafeHs(p, hs) && SameOutcome(p, o, o')
    ensures SameOutcome(p, ExecHandlers(w, fuel, hs, o), ExecHandlers(w, fuel, NewHandlers(p, hs), o'))
    decreases fuel, 1, hs, 0
  {
    hide Ready, SameState, ExecAll, SafeHs, NewHandlers, Look, SafeV, NewValue, SafeL, SafeNames, Unscoped;
    if hs == [] {
      NoHandlers(p);
    } else if o.Raised? {
      HandlerParts(p, hs);
      CaughtSame(p, w, o.exc, o.st, o'.st);
      var x, x' := Look(w, "caught", [o.exc], o.st), Look(w, "caught", [o'.exc], o'.st);
      if x.Got? {
        HandlerScope(p, hs[0].variable, x.value, o.st, o'.st);
        var t := o.st.(scopes := o.st.scopes + [map[hs[0].variable := Binding(x.value, true)]]);
        var t' := o'.st.(scopes := o'.st.scopes + [map[hs[0].variable := Binding(x'.value, true)]]);
        ExecListSame(p, w, fuel, hs[0].body, t, t');
        var u, u' := ExecAll(w, fuel, hs[0].body, t), ExecAll(w, fuel, NewList(p, hs[0].body), t');
        UnscopedSame(p, u, u');
        ExecHandlersSame(p, w, fuel, hs[1..], Unscoped(u), Unscoped(u'));
      }
    }
  }

  lemma {:induction false} FinallySame(p: Pass, w: World, fuel: nat, final: seq<Stmt>, o: Outcome, o': Outcome)
    requires Ready(p, w) && SafeL(p, final) && SameOutcome(p, o, o')
    ensures SameOutcome(p, AndFinally(w, fuel, final, o), AndFinally(w, fuel, NewList(p, final), o'))
    decreases fuel, 1, final, 1
  {
    hide Ready, SameState, ExecAll, SafeV, NewValue, SafeL, NewList;
    if Finished(o) {
      ExecListSame(p, w, fuel, final, o.st, o'.st);
    }
  }

  lemma {:induction false} ExecMatchSame(p: Pass, w: World, fuel: nat, s: Stmt, st: State, st': State)
    requires Ready(p, w) && s.Match? && SafeS(p, s) && SameState(p, st, st')
    ensures SameOutcome(p, Exec(w, fuel, s, st), Exec(w, fuel, NewStmt(p, s), st'))
    decreases fuel, 1, s, 3 + 2 * |s.cases|
  {
    hide *;
    var s' := NewStmt(p, s);
    MatchIsNew(p, s);
    MatchRuns(w, fuel, s, st);
    MatchRuns(w, fuel, s', st');
    AsNew(p, s.value);
    assert MaybeNew(p, true, s.value) == s'.value;
    EvalSame(p, w, fuel, true, s.value, st, st');
    var v, v' := Eval(w, fuel, s.value, st), Eval(w, fuel, s'.value, st');
    if v.Got? {
      GotSame(p, v, v');
      ExecCasesSame(p, w, fuel, s, s', 0, v.value, v.st, v'.st);
      assert Exec(w, fuel, s, st) == ExecCases(w, fuel, s, 0, v.value, v.st);
      assert Exec(w, fuel, s', st') == ExecCases(w, fuel, s', 0, v'.value, v'.st);
    } else {
      StopsSame(p, v, v', Exec(w, fuel, s', st'));
    }
  }

  /** A run that stops, against one that stops alike, or against any if it is an error and the
      pass need not keep errors. */
  lemma StopsSame(p: Pass, r: Result<Value>, r': Result<Value>, o': Outcome)
    requires SameResult(p, r, r') && !r.Got? && (!r'.Got? ==> o' == Stop(r'))
    ensures SameOutcome(p, Stop(r), o')
  {
    hide SameState, NewValue, SafeV;
  }

  lemma AsNew(p: Pass, e: Expr)
    ensures MaybeNew(p, true, e) == NewExpr(p, e) && MaybeNew(p, false, e) == e
  {
  }

  lemma MatchRuns(w: World, fuel: nat, s: Stmt, st: State)
    requires s.Match?
    ensures var v := Eval(w, fuel, s.value, st);
            Exec(w, fuel, s, st) == if v.Got? then ExecCases(w, fuel, s, 0, v.value, v.st) else Stop(v)
  {
    hide Eval, ExecCases;
  }

  /** The second match has the cases and the default that the pass made of the first's. */
  ghost predicate NewMatch(p: Pass, s: Stmt, s': Stmt) {
    && s.Match? && SafeCs(p, s.cases) && SafeL(p, s.default)
    && s'.Match? && s'.cases == NewCases(p, s.cases) && s'.default == NewList(p, s.default)
  }

  lemma MatchIsNew(p: Pass, s: Stmt)
    requires s.Match? && SafeS(p, s)
    ensures var s' := NewStmt(p, s);
            && NewMatch(p, s, s') && s'.Match? && s'.value == NewExpr(p, s.value) && SafeE(p, s.value)
  {
    MatchParts(p, s);
    hide NewCases, NewList, NewExpr, SafeCs, SafeL, SafeE, SafeS;
  }

  lemma NewMatchParts(p: Pass, s: Stmt, s': Stmt)
    requires NewMatch(p, s, s')
    ensures s.Match? && s'.Match? && |s'.cases| == |s.cases| && SafeCs(p, s.cases) && SafeL(p, s.default)
    ensures s'.cases == NewCases(p, s.cases) && s'.default == NewList(p, s.default)
  {
  }

  lemma {:induction false} ExecCasesSame(p: Pass, w: World, fuel: nat, s: Stmt, s': Stmt, k: nat, v: Value, st: State,
                                         st': State)
    requires Ready(p, w) && NewMatch(p, s, s') && s.Match? && k <= |s.cases| && SameState(p, st, st') && SafeV(p, v)
    ensures s'.Match? && |s'.cases| == |s.cases|
    ensures SameOutcome(p, ExecCases(w, fuel, s, k, v, st), ExecCases(w, fuel, s', k, NewValue(p, v), st'))
    decreases fuel, 1, s, 2 * (1 + |s.cases| - k)
  {
    hide *;
    NewMatchParts(p, s, s');
    if k == |s.cases| {
      DefaultRuns(w, fuel, s, v, st);
      DefaultRuns(w, fuel, s', NewValue(p, v), st');
      ExecListSame(p, w, fuel, s.default, st, st');
    } else {
      CaseParts(p, s, k);
      var m := TryPattern(w, fuel, s.cases[k].pattern, v, st);
      var m' := TryPattern(w, fuel, s'.cases[k].pattern, NewValue(p, v), st');
      PatternSame(p, w, fuel, s.cases[k].pattern, v, st, st');
      MatchedSame(p, m, m');
      CaseRuns(w, fuel, s, k, v, st);
      CaseRuns(w, fuel, s', k, NewValue(p, v), st');
      if m.Got? && m.value.None? {
        ExecCasesSame(p, w, fuel, s, s', k + 1, v, m.st, m'.st);
      } else if m.Got? {
        ExecCaseSame(p, w, fuel, s, s', k, v, Push(m.st, m.value.value), Push(m'.st, m'.value.value));
      } else {
        NoMatch(p, m, m', ExecCases(w, fuel, s', k, NewValue(p, v), st'));
      }
    }
  }

  /** A case whose pattern matches. */
  lemma {:induction false} ExecCaseSame(p: Pass, w: World, fuel: nat, s: Stmt, s': Stmt, k: nat, v: Value, t: State,
                                        t': State)
    requires Ready(p, w) && NewMatch(p, s, s') && s.Match? && k < |s.cases| && SameState(p, t, t') && SafeV(p, v)
    ensures s'.Match? && |s'.cases| == |s.cases|
    ensures SameOutcome(p, ExecCase(w, fuel, s, k, v, t), ExecCase(w, fuel, s', k, NewValue(p, v), t'))
    decreases fuel, 1, s, 2 * (1 + |s.cases| - k) - 1
  {
    hide *;
    NewMatchParts(p, s, s');
    CaseParts(p, s, k);
    CaseBodyRuns(w, fuel, s, k, v, t);
    CaseBodyRuns(w, fuel, s', k, NewValue(p, v), t');
    if s.cases[k].guard == Absent {
      PlainCaseSame(p, w, fuel, s, k, t, t');
    } else {
      GuardSame(p, w, fuel, s, k, t, t');
      var g, g' := Eval(w, fuel, s.cases[k].guard, t), Eval(w, fuel, s.cases[k].guard, t');
      if g.Got? && !Truthy(w.host, g.value) {
        ExecCasesSame(p, w, fuel, s, s', k + 1, v, DropScope(g.st), DropScope(g'.st));
      }
      if !g.Got? { GuardStops(p, g, g', ExecCase(w, fuel, s', k, NewValue(p, v), t')); }
    }
  }

  /** The body of a case without a guard. */
  lemma {:induction false} PlainCaseSame(p: Pass, w: World, fuel: nat, s: Stmt, k: nat, t: State, t': State)
    requires Ready(p, w) && s.Match? && k < |s.cases| && SafeCs(p, s.cases) && SameState(p, t, t')
    ensures var c := s.cases[k];
            SameOutcome(p, Unscoped(ExecAll(w, fuel, c.body, t)), Unscoped(ExecAll(w, fuel, NewList(p, c.body), t')))
    decreases fuel, 1, s, 0
  {
    CaseParts(p, s, k);
    hide *;
    var c := s.cases[k];
    ExecListSame(p, w, fuel, c.body, t, t');
    UnscopedSame(p, ExecAll(w, fuel, c.body, t), ExecAll(w, fuel, NewList(p, c.body), t'));
  }

  lemma DefaultRuns(w: World, fuel: nat, s: Stmt, v: Value, st: State)
    requires s.Match?
    ensures ExecCases(w, fuel, s, |s.cases|, v, st) == ExecAll(w, fuel, s.default, st)
  {
    hide ExecAll;
  }

  /** The guard of a case, and the body behind it. */
  lemma {:induction false} GuardSame(p: Pass, w: World, fuel: nat, s: Stmt, k: nat, t: State, t': State)
    requires Ready(p, w) && s.Match? && k < |s.cases| && SafeCs(p, s.cases) && SameState(p, t, t')
    ensures var c := s.cases[k];
            var g, g' := Eval(w, fuel, c.guard, t), Eval(w, fuel, c.guard, t');
            && SameResult(p, g, g')
            && (g.Got? ==>
                  && g'.Got? && Truthy(w.host, g'.value) == Truthy(w.host, g.value)
                  && SameState(p, DropScope(g.st), DropScope(g'.st))
                  && SameOutcome(p, Unscoped(ExecAll(w, fuel, c.body, g.st)),
                                 Unscoped(ExecAll(w, fuel, NewList(p, c.body), g'.st))))
    decreases fuel, 1, s, 0
  {
    CaseParts(p, s, k);
    hide *;
    var c := s.cases[k];
    EvalSame(p, w, fuel, false, c.guard, t, t');
    AsNew(p, c.guard);
    var g, g' := Eval(w, fuel, c.guard, t), Eval(w, fuel, c.guard, t');
    if g.Got? {
      GotSame(p, g, g');
      TruthySame(p, w.host, g.value);
      ExecListSame(p, w, fuel, c.body, g.st, g'.st);
      UnscopedSame(p, ExecAll(w, fuel, c.body, g.st), ExecAll(w, fuel, NewList(p, c.body), g'.st));
      DropSame(p, g.st, g'.st);
    }
  }

  /** One case, unfolded. */
  lemma CaseRuns(w: World, fuel: nat, s: Stmt, k: nat, v: Value, st: State)
    requires s.Match? && k < |s.cases|
    ensures var m := TryPattern(w, fuel, s.cases[k].pattern, v, st);
            ExecCases(w, fuel, s, k, v, st)
            == if !m.Got? then Stop(m)
               else if m.value.None? then ExecCases(w, fuel, s, k + 1, v, m.st)
               else ExecCase(w, fuel, s, k, v, Push(m.st, m.value.value))
  {
    hide TryPattern, ExecCase, Stop, Push;
  }

  lemma CaseBodyRuns(w: World, fuel: nat, s: Stmt, k: nat, v: Value, t: State)
    requires s.Match? && k < |s.cases|
    ensures var c := s.cases[k];
            var g := Eval(w, fuel, c.guard, t);
            ExecCase(w, fuel, s, k, v, t)
            == if c.guard == Absent then Unscoped(ExecAll(w, fuel, c.body, t))
               else if !g.Got? then Unscoped(Stop(g))
               else if Truthy(w.host, g.value) then Unscoped(ExecAll(w, fuel, c.body, g.st))
               else ExecCases(w, fuel, s, k + 1, v, DropScope(g.st))
  {
    hide ExecAll, Eval, Unscoped, Stop, DropScope, Truthy, ExecCases;
  }

  /** A pattern, and what the pass made of it. */
  lemma {:induction false} PatternSame(p: Pass, w: World, fuel: nat, pat: Expr, v: Value, st: State, st': State)
    requires Ready(p, w) && SafeE(p, pat) && SafePattern(p, pat) && SameState(p, st, st') && SafeV(p, v)
    ensures SameMatch(p, TryPattern(w, fuel, pat, v, st), TryPattern(w, fuel, NewExpr(p, pat), NewValue(p, v), st'))
    decreases fuel, 0, SizeAll(PatternOperands(pat)), 2 + |PatternOperands(pat)|
  {
    var es, d := PatternOperands(pat), !pat.Range?;
    PatternNew(p, pat);
    PatternSafe(p, pat);
    hide *;
    EvalAllSame(p, w, fuel, d, es, st, st');
    ThenCompare(p, w, fuel, pat, v, st, st');
  }

  lemma BlockRuns(w: World, fuel: nat, body: seq<Stmt>, st: State)
    ensures Exec(w, fuel, Block(body), st) == ExecAll(w, fuel, body, st)
  {
    hide ExecAll;
  }

  lemma OtherStmtSame(p: Pass, w: World, fuel: nat, s: Stmt, st: State, st': State)
    requires SameState(p, st, st')
    requires !s.Print? && !s.ExprStmt? && !s.Return? && !s.Let? && !s.If? && !s.Block? && !s.While? && !s.For?
             && !s.Proc? && !s.Raise? && !s.Class? && !s.Try? && !s.Match?
    ensures SameOutcome(p, Exec(w, fuel, s, st), Exec(w, fuel, NewStmt(p, s), st'))
  {
    hide SameState;
  }

  lemma {:induction false} ExecIfSame(p: Pass, w: World, fuel: nat, e: Expr, thn: seq<Stmt>, els: seq<Stmt>,
                                      st: State, st': State)
    requires Ready(p, w) && SafeS(p, If(e, thn, els)) && SameState(p, st, st')
    ensures SameOutcome(p, Exec(w, fuel, If(e, thn, els), st), Exec(w, fuel, NewStmt(p, If(e, thn, els)), st'))
    decreases fuel, 1, If(e, thn, els), 1
  {
    hide Ready, SameState, Exec, ExecAll, Eval, SameResult, SameOutcome, NewExpr, NewList, NewStmt;
    EvalSame(p, w, fuel, true, e, st, st');
    var v, v' := Eval(w, fuel, e, st), Eval(w, fuel, NewExpr(p, e), st');
    if v.Got? {
      GotSame(p, v, v');
      ExecListSame(p, w, fuel, thn, v.st, v'.st);
      ExecListSame(p, w, fuel, els, v.st, v'.st);
    }
    IfSame(p, w, fuel, e, NewExpr(p, e), thn, NewList(p, thn), els, NewList(p, els), st, st');
    IfNew(p, w, fuel, e, thn, els, st');
  }

  lemma {:induction false} ExecWhileSame(p: Pass, w: World, fuel: nat, e: Expr, body: seq<Stmt>, st: State, st': State)
    requires Ready(p, w) && SafeS(p, While(e, body)) && SameState(p, st, st')
    ensures SameOutcome(p, Exec(w, fuel, While(e, body), st), Exec(w, fuel, NewStmt(p, While(e, body)), st'))
    decreases fuel, 1, While(e, body), 1
  {
    hide Ready, SameState, Exec, ExecAll, Eval, SameResult, SameOutcome, NewExpr, NewList, NewStmt;
    EvalSame(p, w, fuel, true, e, st, st');
    var v, v' := Eval(w, fuel, e, st), Eval(w, fuel, NewExpr(p, e), st');
    if v.Got? && fuel > 0 {
      GotSame(p, v, v');
      ExecListSame(p, w, fuel - 1, body, v.st, v'.st);
      var o, o' := ExecAll(w, fuel - 1, body, v.st), ExecAll(w, fuel - 1, NewList(p, body), v'.st);
      if o.Normal? || o.Continued? {
        GoOn(p, o, o');
        ExecWhileSame(p, w, fuel - 1, e, body, o.st, o'.st);
        WhileNew(p, w, fuel - 1, e, body, o'.st);
      }
    }
    WhileSame(p, w, fuel, e, NewExpr(p, e), body, NewList(p, body), st, st');
    WhileNew(p, w, fuel, e, body, st');
  }

  lemma {:induction false} ExecForSame(p: Pass, w: World, fuel: nat, x: string, e: Expr, body: seq<Stmt>, st: State,
                                       st': State)
    requires Ready(p, w) && SafeS(p, For(x, e, body)) && SameState(p, st, st')
    ensures SameOutcome(p, Exec(w, fuel, For(x, e, body), st), Exec(w, fuel, NewStmt(p, For(x, e, body)), st'))
    decreases fuel, 1, For(x, e, body), 1
  {
    hide Ready, SameState, Exec, ExecEach, Eval, SameResult, SameOutcome, NewExpr, NewList, NewStmt, LenValue, SafeV,
         NewValue;
    EvalSame(p, w, fuel, true, e, st, st');
    var v, v' := Eval(w, fuel, e, st), Eval(w, fuel, NewExpr(p, e), st');
    if v.Got? {
      GotSame(p, v, v');
      ElementSame(p, v.value, 0);
      if LenValue(v.value).Some? {
        PushSame(p, v.st, v'.st);
        ExecEachSame(p, w, fuel, x, v.value, 0, body, v.st.(scopes := v.st.scopes + [map[]]),
                     v'.st.(scopes := v'.st.scopes + [map[]]));
      }
    }
    ForSame(p, w, fuel, x, e, NewExpr(p, e), body, NewList(p, body), st, st');
    ForNew(p, x, e, body);
  }

  lemma ForNew(p: Pass, x: string, e: Expr, body: seq<Stmt>)
    ensures NewStmt(p, For(x, e, body)) == For(x, NewExpr(p, e), NewList(p, body))
  {
  }

  lemma {:induction false} ExecEachSame(p: Pass, w: World, fuel: nat, x: string, v: Value, i: nat, body: seq<Stmt>,
                                        st: State, st': State)
    requires Ready(p, w) && SafeL(p, body) && SameState(p, st, st') && SafeV(p, v) && SafeNames(p, [x])
    requires LenValue(v).Some? && i <= LenValue(v).value
    ensures LenValue(NewValue(p, v)) == LenValue(v)
    ensures SameOutcome(p, ExecEach(w, fuel, x, v, i, body, st),
                        ExecEach(w, fuel, x, NewValue(p, v), i, NewList(p, body), st'))
    decreases fuel, 1, body, 1 + LenValue(v).value - i
  {
    hide Ready, SameState, ExecAll, NewList, LenValue, SafeV, NewValue, SafeL, ElementAt;
    ElementSame(p, v, i);
    if i < LenValue(v).value {
      var a := ElementAt(v, i);
      OtherName(p, x, a);
      DefineState(p, st, st', x, a, true);
      var t, t' := st.(scopes := Define(st.scopes, x, a, true)),
                   st'.(scopes := Define(st'.scopes, x, NewValue(p, a), true));
      ExecListSame(p, w, fuel, body, t, t');
      var o, o' := ExecAll(w, fuel, body, t), ExecAll(w, fuel, NewList(p, body), t');
      if o.Normal? || o.Continued? {
        GoOn(p, o, o');
        ExecEachSame(p, w, fuel, x, v, i + 1, body, o.st, o'.st);
      }
    }
  }

  /** A statement that dead code elimination drops has no effect but on dead names. */
  lemma DroppedSame(p: Pass, w: World, fuel: nat, s: Stmt, st: State, st': State)
    requires p.Drop? && !Keep(p.used, s) && SafeS(p, s) && SameState(p, st, st')
    ensures var o := Exec(w, fuel, s, st);
            o.Failed? || o.TimedOut? || (o.Normal? && SameState(p, o.st, st'))
  {
    hide SameScopes, SafeTrace, NewTrace, Define, Eval;
    if s.Let? {
      QuietKeeps(w, fuel, s.init, st);
      var v := Eval(w, fuel, s.init, st);
      if v.Got? {
        DefineDead(p, st.scopes, st'.scopes, s.name, v.value, false);
      }
    } else {
      DefineDead(p, st.scopes, st'.scopes, s.name, FunV(s.name, s.sig, s.body), true);
    }
  }

  /** A statement list, and what the pass made of it, in related states. */
  lemma {:induction false} ExecListSame(p: Pass, w: World, fuel: nat, ss: seq<Stmt>, st: State, st': State)
    requires Ready(p, w) && SafeL(p, ss) && SameState(p, st, st')
    ensures SameOutcome(p, ExecAll(w, fuel, ss, st), ExecAll(w, fuel, NewList(p, ss), st'))
    decreases fuel, 1, ss, 0
  {
    hide Ready, SameState, Exec, SafeS, NewStmt;
    if ss != [] {
      var s, rest := ss[0], ss[1..];
      SafeParts(p, ss);
      var o := Exec(w, fuel, s, st);
      if !p.Drop? || Keep(p.used, s) {
        ExecSame(p, w, fuel, s, st, st');
        var o' := Exec(w, fuel, NewStmt(p, s), st');
        if o.Normal? {
          ExecListSame(p, w, fuel, rest, o.st, o'.st);
        }
        KeptHead(p, ss);
        if IsTerminator(s) { TerminatorStops(w, fuel, s, st); }
      } else {
        DroppedSame(p, w, fuel, s, st, st');
        DroppedHead(p, ss);
        if o.Normal? {
          ExecListSame(p, w, fuel, rest, o.st, st');
        }
      }
    }
  }

  lemma SafeParts(p: Pass, ss: seq<Stmt>)
    requires SafeL(p, ss) && ss != []
    ensures SafeS(p, ss[0]) && SafeL(p, ss[1..])
  {
  }

  lemma KeptHead(p: Pass, ss: seq<Stmt>)
    requires ss != [] && (!p.Drop? || Keep(p.used, ss[0]))
    ensures NewList(p, ss) == [NewStmt(p, ss[0])] + if p.Drop? && IsTerminator(ss[0]) then [] else NewList(p, ss[1..])
  {
  }

  lemma DroppedHead(p: Pass, ss: seq<Stmt>)
    requires ss != [] && p.Drop? && !Keep(p.used, ss[0])
    ensures NewList(p, ss) == NewList(p, ss[1..])
  {
  }

  lemma TerminatorStops(w: World, fuel: nat, s: Stmt, st: State)
    requires IsTerminator(s)
    ensures !Exec(w, fuel, s, st).Normal?
  {
  }
}
